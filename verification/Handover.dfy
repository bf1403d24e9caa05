// The hand-over in pkg/tunnel: the server authenticates through a bufio.Reader, drops that
// reader, and goes on with a SecureConn that reads the raw connection. The client and the
// server are the parties of one transition system; every chunking of the octets between
// them is a run of it.
module Handover {
  import opened Bytes
  import opened Text
  import opened Crypto
  import opened Net
  import opened Auth
  import opened SecureStream
  import opened Handshake

  const PROBE_HOST: text := [112, 114, 111, 98, 101, 46, 115, 101, 115, 115, 105, 111, 110]

  /** "probe.session:1", a destination the server answers without dialling anything. */
  const PROBE: text := PROBE_HOST + [58, 49]

  /** The fixed choices of one honest client. */
  datatype Client = Client(auth: ClientAuth, destination: text, clientNonce: nonce, timestamp: int, seal: nat) {
    predicate Valid() {
      auth.Valid() && ValidDestination(destination)
      && -0x8000_0000_0000_0000 <= timestamp < 0x8000_0000_0000_0000
    }

    function Hello(): seq<Octet> {
      if auth.UsesV2() then HelloV2(Trim(auth.clientID), clientNonce)
      else HelloLegacy(auth.psk, clientNonce, timestamp, destination, seal)
    }

    function Proof(serverNonce: nonce): seq<Octet> {
      ProofV2(auth.clientSecret, clientNonce, serverNonce, destination, seal)
    }

    function SessionKey(serverNonce: nonce): Key {
      if auth.UsesV2() then SessionV2Key(auth.clientSecret, clientNonce, serverNonce)
      else LegacyKey(auth.psk, clientNonce)
    }
  }

  datatype ClientPhase =
    | SendingHello
    | AwaitingStatus(key: Key)
    | Streaming(key: Key)
    | ClientFailed

  datatype ServerPhase =
    | Authenticating(challenged: bool)
    | Serving(key: Key, probe: bool, statusSent: bool)
    | Dropped                               // the connection is closed

  /** `toSend` is the unsent rest of the client's current write, `c2s` is in the network, `taken`
      went through the server's bufio.Reader, `raw` through its SecureConn; `leftover` is what the
      reader still held when it was dropped. */
  datatype State = State(
    client: ClientPhase, toSend: seq<Octet>, c2s: seq<Octet>, s2c: seq<Octet>,
    server: ServerPhase, taken: seq<Octet>, leftover: seq<Octet>, raw: seq<Octet>,
    written: seq<Written>, received: seq<byte>)

  datatype Action =
    | Push(n: nat)                          // the client's transport takes n octets
    | ReadChallenge                         // Auth v2 client: nonce in, proof out
    | AwaitStatus                           // legacy client: hello is out
    | ReadStatus                            // first frame from the server
    | ClientWrite(nonce: nat, data: seq<byte>)
    | Fill(n: nat)                          // bufio.Reader reads the connection
    | Challenge                             // server nonce out
    | Decide                                // authenticateConn returns
    | SendStatus(nonce: nat, status: seq<byte>)
    | RawRead(n: nat)                       // SecureConn reads the connection
    | Deliver                               // a whole frame opens

  function Init(client: Client): State {
    State(SendingHello, client.Hello(), [], [], Authenticating(false), [], [], [], [], [])
  }

  /** The Auth v2 hello is complete, so the server sends its nonce before reading on. */
  predicate PastHello(session: Session, s: seq<Octet>) {
    && |s| >= 6 && Field(s, 0, 4) == MAGIC && session.config.clients != map[]
    && var idLen := Uint16(Field(s, 4, 6));
       8 <= idLen <= MAX_CLIENT_ID && |s| >= 6 + idLen + NONCE
  }

  predicate FrameOpens(key: Key, wire: seq<Octet>) {
    WholeFrame(wire) && Open(key, wire[4..4 + HeaderLength(wire)]).Some?
  }

  function FramePlain(key: Key, wire: seq<Octet>): seq<byte>
    requires FrameOpens(key, wire)
  {
    Open(key, wire[4..4 + HeaderLength(wire)]).value
  }

  function AfterFrame(wire: seq<Octet>): seq<Octet>
    requires WholeFrame(wire)
  {
    wire[4 + HeaderLength(wire)..]
  }

  /** How many octets the pending io.ReadFull of SecureConn.Read still asks for. */
  function Wanted(raw: seq<Octet>): int {
    if |raw| < 4 then 4 - |raw| else 4 + HeaderLength(raw) - |raw|
  }

  predicate Enabled(client: Client, session: Session, s: State, a: Action) {
    match a
    case Push(n) => 0 < n <= |s.toSend|
    case ReadChallenge =>
      s.client.SendingHello? && client.auth.UsesV2() && s.toSend == [] && |s.s2c| >= NONCE
    case AwaitStatus => s.client.SendingHello? && !client.auth.UsesV2() && s.toSend == []
    case ReadStatus => s.client.AwaitingStatus? && s.toSend == [] && WholeFrame(s.s2c)
    case ClientWrite(_, _) => s.client.Streaming? && s.toSend == []
    case Fill(n) =>
      s.server.Authenticating? && 0 < n <= Min(BUFFER_SIZE, |s.c2s|)
      && Authenticate(session, s.taken).NeedMore? && (PastHello(session, s.taken) ==> s.server.challenged)
    case Challenge => s.server == Authenticating(false) && PastHello(session, s.taken)
    case Decide =>
      s.server.Authenticating? && !Authenticate(session, s.taken).NeedMore?
      && (PastHello(session, s.taken) ==> s.server.challenged)
    case SendStatus(_, status) =>
      s.server.Serving? && !s.server.statusSent && 0 < |status| <= MAX_PLAIN_FRAME
      && (s.server.probe ==> status == [0])
    case RawRead(n) => s.server.Serving? && 0 < n <= |s.c2s| && n <= Wanted(s.raw)
    case Deliver => s.server.Serving? && FrameOpens(s.server.key, s.raw)
  }

  function Apply(client: Client, session: Session, s: State, a: Action): State
    requires Enabled(client, session, s, a)
  {
    match a
    case Push(n) => s.(c2s := s.c2s + s.toSend[..n], toSend := s.toSend[n..])
    case ReadChallenge =>
      var serverNonce := Field(s.s2c, 0, NONCE);
      s.(client := AwaitingStatus(client.SessionKey(serverNonce)), toSend := client.Proof(serverNonce),
         s2c := s.s2c[NONCE..])
    case AwaitStatus => s.(client := AwaitingStatus(client.SessionKey(session.serverNonce)))
    case ReadStatus =>
      var key := s.client.key;
      s.(client := if FrameOpens(key, s.s2c) && 0 < |FramePlain(key, s.s2c)| && FramePlain(key, s.s2c)[0] == 0
                   then Streaming(key) else ClientFailed,
         s2c := AfterFrame(s.s2c))
    case ClientWrite(nonce, data) =>
      s.(toSend := Framed(s.client.key, nonce, data), written := s.written + [Written(nonce, data)])
    case Fill(n) => s.(taken := s.taken + s.c2s[..n], c2s := s.c2s[n..])
    case Challenge => s.(server := Authenticating(true), s2c := s.s2c + Raws(session.serverNonce))
    case Decide =>
      (match Authenticate(session, s.taken)
       case Accept(consumed, hello, key) =>
         VerdictIsFinal(session, s.taken, []);
         s.(server := Serving(key, hello.destination == PROBE, false), leftover := s.taken[consumed..])
       case _ => s.(server := Dropped))
    case SendStatus(nonce, status) =>
      s.(server := if status[0] == 0 && !s.server.probe then s.server.(statusSent := true) else Dropped,
         s2c := s.s2c + Frame(s.server.key, nonce, status))
    case RawRead(n) => s.(raw := s.raw + s.c2s[..n], c2s := s.c2s[n..])
    case Deliver => s.(received := s.received + FramePlain(s.server.key, s.raw), raw := AfterFrame(s.raw))
  }

  predicate CanRun(client: Client, session: Session, s: State, actions: seq<Action>)
    decreases |actions|
  {
    actions == []
    || (Enabled(client, session, s, actions[0])
        && CanRun(client, session, Apply(client, session, s, actions[0]), actions[1..]))
  }

  function Run(client: Client, session: Session, s: State, actions: seq<Action>): State
    requires CanRun(client, session, s, actions)
    decreases |actions|
  {
    if actions == [] then s
    else Run(client, session, Apply(client, session, s, actions[0]), actions[1..])
  }

  // ----- Wires made of whole frames -------------------------------------------------------------

  /** The wire is a sequence of whole frames that open under the key. */
  predicate Complete(key: Key, wire: seq<Octet>)
    decreases |wire|
  {
    wire == [] || (FrameOpens(key, wire) && Complete(key, AfterFrame(wire)))
  }

  lemma FrameOfPrefix(wire: seq<Octet>, more: seq<Octet>)
    requires WholeFrame(wire)
    ensures WholeFrame(wire + more) && HeaderLength(wire + more) == HeaderLength(wire)
    ensures (wire + more)[4..4 + HeaderLength(wire)] == wire[4..4 + HeaderLength(wire)]
    ensures AfterFrame(wire + more) == AfterFrame(wire) + more
  {
    assert (wire + more)[..4] == wire[..4];
    assert (wire + more)[4..4 + HeaderLength(wire)] == wire[4..4 + HeaderLength(wire)];
  }

  lemma FirstFrame(key: Key, a: seq<Octet>, b: seq<Octet>)
    requires FrameOpens(key, a)
    ensures FrameOpens(key, a + b) && AfterFrame(a + b) == AfterFrame(a) + b
    ensures Stream(key, a) == FramePlain(key, a) + Stream(key, AfterFrame(a))
    ensures Stream(key, a + b) == FramePlain(key, a) + Stream(key, AfterFrame(a) + b)
  {
    FrameOfPrefix(a, b);
    StreamStep(key, a, HeaderLength(a));
    StreamStep(key, a + b, HeaderLength(a));
  }

  lemma {:induction false} CompleteAppend(key: Key, a: seq<Octet>, b: seq<Octet>)
    requires Complete(key, a) && Complete(key, b)
    ensures Complete(key, a + b) && Stream(key, a + b) == Stream(key, a) + Stream(key, b)
    decreases |a|
  {
    if a == [] {
      assert a + b == b;
    } else {
      FirstFrame(key, a, b);
      CompleteAppend(key, AfterFrame(a), b);
      Assoc(FramePlain(key, a), Stream(key, AfterFrame(a)), Stream(key, b));
    }
  }

  lemma {:induction false} FramedIsComplete(key: Key, nonce: nat, data: seq<byte>)
    ensures Complete(key, Framed(key, nonce, data)) && Stream(key, Framed(key, nonce, data)) == data
    decreases |data|
  {
    if data != [] {
      var size := Min(|data|, MAX_PLAIN_FRAME);
      FramedStep(key, nonce, data);
      FramedIsComplete(key, nonce + 1, data[size..]);
      FrameHeader(key, nonce, data[..size], Framed(key, nonce + 1, data[size..]));
      OpenOfSeal(key, nonce, data[..size]);
    }
    StreamOfFramed(key, nonce, data, []);
    assert Framed(key, nonce, data) + [] == Framed(key, nonce, data);
  }

  lemma {:induction false} DataOfSnoc(writes: seq<Written>, w: Written)
    ensures DataOf(writes + [w]) == DataOf(writes) + w.data
  {
    if writes == [] {
      assert writes + [w] == [w];
      assert DataOf([w]) == w.data + DataOf([]);
    } else {
      DataOfSnoc(writes[1..], w);
      assert (writes + [w])[1..] == writes[1..] + [w];
      Assoc(writes[0].data, DataOf(writes[1..]), w.data);
    }
  }

  // ----- The invariant ----------------------------------------------------------------------------

  /** Everything the client sends before it has read the status. */
  function Opening(client: Client, session: Session, phase: ClientPhase): seq<Octet> {
    if client.auth.UsesV2() && !phase.SendingHello? then client.Hello() + client.Proof(session.serverNonce)
    else client.Hello()
  }

  predicate GoodStatus(key: Key, wire: seq<Octet>) {
    FrameOpens(key, wire) && 0 < |FramePlain(key, wire)| && FramePlain(key, wire)[0] == 0
  }

  predicate AllRaw(wire: seq<Octet>) {
    forall o :: o in wire ==> o.Raw?
  }

  /** Where the server goes with a status of 0: a probe is over, any other stream begins. */
  function Welcomed(client: Client, key: Key): ServerPhase {
    if client.destination == PROBE then Dropped else Serving(key, false, true)
  }

  /** The direction from server to client: what it may hold before the status. */
  ghost predicate ReplyInv(client: Client, session: Session, s: State) {
    var v2, key := client.auth.UsesV2(), client.SessionKey(session.serverNonce);
    && (s.client.AwaitingStatus? || s.client.Streaming? ==> s.client.key == key)
    && (s.client.Streaming? ==> s.server == Welcomed(client, key))
    && (s.client.SendingHello? || s.client.AwaitingStatus? ==>
          GoodStatus(key, s.s2c) ==> s.server == Welcomed(client, key))
    && (v2 && s.client.SendingHello? ==>
          !s.server.Serving? && s.s2c == if s.server == Authenticating(true) then Raws(session.serverNonce) else [])
    && (v2 && !s.client.SendingHello? && s.server.Authenticating? ==> s.server.challenged && s.s2c == [])
    && (s.server.Authenticating? ==> AllRaw(s.s2c))
    && (s.server == Authenticating(false) ==> s.s2c == [])
    && (s.server == Authenticating(true) ==> PastHello(session, s.taken))
    && (s.server.Serving? && !s.server.statusSent ==> s.s2c == [])
    && (s.server.Serving? ==> s.server.probe == (client.destination == PROBE))
  }

  /** What the server's SecureConn has yet to deliver. */
  function Wire(s: State): seq<Octet> {
    s.raw + (s.c2s + s.toSend)
  }

  /** The direction from client to server: nothing is lost or added. */
  ghost predicate StreamInv(client: Client, session: Session, s: State) {
    var key, wire := client.SessionKey(session.serverNonce), Wire(s);
    match s.server
    case Authenticating(_) =>
      s.taken + (s.c2s + s.toSend) == Opening(client, session, s.client)
      && s.raw == [] && s.received == [] && s.written == []
    case Serving(k, _, _) =>
      k == key && s.leftover == [] && Complete(key, wire)
      && s.received + Stream(key, wire) == DataOf(s.written)
      && (!s.client.Streaming? ==> wire == [] && s.written == [])
    case Dropped =>
      s.received == [] && (client.destination != PROBE ==> s.written == [])
  }

  ghost predicate Inv(client: Client, session: Session, s: State) {
    ReplyInv(client, session, s) && StreamInv(client, session, s)
  }

  lemma InitInv(client: Client, session: Session)
    ensures Inv(client, session, Init(client))
  {
    assert [] + ([] + client.Hello()) == client.Hello();
  }

  lemma RawIsNoStatus(key: Key, wire: seq<Octet>)
    requires AllRaw(wire)
    ensures !GoodStatus(key, wire)
  {
    if WholeFrame(wire) {
      var body := wire[4..4 + HeaderLength(wire)];
      assert body[0] in wire;
    }
  }

  /** If the server accepts what it has taken of an honest opening, it has taken all of it, has
      nothing left over, and derived the client's own session key. */
  lemma AcceptedOpening(client: Client, session: Session, phase: ClientPhase, taken: seq<Octet>, rest: seq<Octet>)
    requires client.Valid() && taken + rest == Opening(client, session, phase)
    requires Authenticate(session, taken).Accept?
    ensures rest == [] && Authenticate(session, taken).consumed == |taken|
    ensures Authenticate(session, taken).key == client.SessionKey(session.serverNonce)
    ensures Authenticate(session, taken).hello.destination == client.destination
    ensures client.auth.UsesV2() ==> !phase.SendingHello?
  {
    var sent := Opening(client, session, phase);
    VerdictIsFinal(session, taken, rest);
    var id := Trim(client.auth.clientID);
    if !client.auth.UsesV2() {
      LegacyAgreement(session, client.auth.psk, client.clientNonce, client.timestamp, client.destination, client.seal);
    } else if phase.SendingHello? {
      HelloV2IsNotEnough(session, id, client.clientNonce);
    } else {
      ScanOfHonestHello(id, client.clientNonce, client.Proof(session.serverNonce));
      HonestV2(session, id, client.auth.clientSecret, client.clientNonce, client.destination, client.seal);
      var used := AuthV2Key(client.auth.clientSecret, client.clientNonce, session.serverNonce);
      var expected := AuthV2Key(SecretFor(session, id), client.clientNonce, session.serverNonce);
      if used != expected {
        OtherKeyFails(used, expected, client.seal, ProofPlain(client.destination));
      }
    }
  }

  lemma PastHelloOfPrefix(session: Session, s: seq<Octet>, more: seq<Octet>)
    requires PastHello(session, s)
    ensures PastHello(session, s + more)
  {
    FieldOfPrefix(s, more, 0, 4);
    FieldOfPrefix(s, more, 4, 6);
  }

  /** A challenged server waits for the proof: no verdict on an Auth v2 hello alone, and no
      acceptance of a legacy hello. */
  lemma ChallengedVerdict(client: Client, session: Session, phase: ClientPhase, taken: seq<Octet>, rest: seq<Octet>)
    requires client.Valid() && taken + rest == Opening(client, session, phase)
    requires PastHello(session, taken)
    ensures client.auth.UsesV2() && phase.SendingHello? ==> Authenticate(session, taken).NeedMore?
    ensures !client.auth.UsesV2() ==> !Authenticate(session, taken).Accept?
  {
    if !Authenticate(session, taken).NeedMore? {
      VerdictIsFinal(session, taken, rest);
      if client.auth.UsesV2() {
        HelloV2IsNotEnough(session, Trim(client.auth.clientID), client.clientNonce);
      } else {
        FieldOfPrefix(taken, rest, 0, 4);
        ValidDestinationNotEmpty(client.destination);
        ScanOfHonestLegacy(client.clientNonce, Seal(LegacyKey(client.auth.psk, client.clientNonce), client.seal,
                                                    LegacyPlain(client.timestamp, client.destination)));
        LegacyAgreement(session, client.auth.psk, client.clientNonce, client.timestamp, client.destination,
                        client.seal);
      }
    }
  }

  lemma ReplyChallenge(client: Client, session: Session, s: State)
    requires Inv(client, session, s) && Enabled(client, session, s, Challenge)
    ensures ReplyInv(client, session, Apply(client, session, s, Challenge))
  {
    assert s.s2c + Raws(session.serverNonce) == Raws(session.serverNonce);
    RawIsNoStatus(client.SessionKey(session.serverNonce), Raws(session.serverNonce));
  }

  lemma ReplyReadChallenge(client: Client, session: Session, s: State)
    requires Inv(client, session, s) && Enabled(client, session, s, ReadChallenge)
    ensures ReplyInv(client, session, Apply(client, session, s, ReadChallenge))
  {
    ReadChallengeNonce(client, session, s);
    RawIsNoStatus(client.SessionKey(session.serverNonce), []);
  }

  lemma ReplyDecide(client: Client, session: Session, s: State)
    requires client.Valid() && Inv(client, session, s) && Enabled(client, session, s, Decide)
    ensures ReplyInv(client, session, Apply(client, session, s, Decide))
  {
    RawIsNoStatus(client.SessionKey(session.serverNonce), s.s2c);
    if Authenticate(session, s.taken).Accept? {
      AcceptedOpening(client, session, s.client, s.taken, s.c2s + s.toSend);
    }
    if s.server.challenged {
      ChallengedVerdict(client, session, s.client, s.taken, s.c2s + s.toSend);
    }
  }

  lemma ReplySendStatus(client: Client, session: Session, s: State, a: Action)
    requires Inv(client, session, s) && Enabled(client, session, s, a) && a.SendStatus?
    ensures ReplyInv(client, session, Apply(client, session, s, a))
  {
    var key := client.SessionKey(session.serverNonce);
    FrameHeader(key, a.nonce, a.status, []);
    OpenOfSeal(key, a.nonce, a.status);
    assert Frame(key, a.nonce, a.status) + [] == Frame(key, a.nonce, a.status);
    assert s.s2c + Frame(key, a.nonce, a.status) == Frame(key, a.nonce, a.status);
  }

  lemma ReplyElsewhere(client: Client, session: Session, s: State, a: Action)
    requires Inv(client, session, s) && Enabled(client, session, s, a)
    requires a.Push? || a.AwaitStatus? || a.ReadStatus? || a.ClientWrite? || a.Fill? || a.RawRead? || a.Deliver?
    ensures ReplyInv(client, session, Apply(client, session, s, a))
  {
    if a.Fill? && s.server.challenged {
      PastHelloOfPrefix(session, s.taken, s.c2s[..a.n]);
    }
  }

  lemma ReplyStep(client: Client, session: Session, s: State, a: Action)
    requires client.Valid() && Inv(client, session, s) && Enabled(client, session, s, a)
    ensures ReplyInv(client, session, Apply(client, session, s, a))
  {
    match a
    case ReadChallenge => ReplyReadChallenge(client, session, s);
    case Challenge => ReplyChallenge(client, session, s);
    case Decide => ReplyDecide(client, session, s);
    case SendStatus(_, _) => ReplySendStatus(client, session, s, a);
    case _ => ReplyElsewhere(client, session, s, a);
  }

  /** Moving octets along the path changes neither the opening nor the wire. */
  lemma StreamMoves(client: Client, session: Session, s: State, a: Action)
    requires Inv(client, session, s) && Enabled(client, session, s, a)
    requires a.Push? || a.Fill? || a.RawRead?
    ensures StreamInv(client, session, Apply(client, session, s, a))
  {
    var t := Apply(client, session, s, a);
    match a
    case Push(n) =>
      Assoc(s.c2s, s.toSend[..n], s.toSend[n..]);
      assert s.toSend[..n] + s.toSend[n..] == s.toSend;
    case Fill(n) =>
      Moved(s.taken, s.c2s, s.toSend, n);
    case RawRead(n) =>
      Moved(s.raw, s.c2s, s.toSend, n);
  }

  lemma Moved(a: seq<Octet>, b: seq<Octet>, c: seq<Octet>, n: nat)
    requires n <= |b|
    ensures (a + b[..n]) + (b[n..] + c) == a + (b + c)
  {
  }

  lemma StreamClientWrite(client: Client, session: Session, s: State, a: Action)
    requires Inv(client, session, s) && Enabled(client, session, s, a) && a.ClientWrite?
    ensures StreamInv(client, session, Apply(client, session, s, a))
  {
    if s.server.Serving? {
      var t := Apply(client, session, s, a);
      var key := client.SessionKey(session.serverNonce);
      assert Wire(s) == s.raw + s.c2s;
      WireThenWrite(key, s.raw + s.c2s, a.nonce, a.data);
      Assoc(s.raw, s.c2s, t.toSend);
      DataOfSnoc(s.written, Written(a.nonce, a.data));
      Assoc(s.received, Stream(key, s.raw + s.c2s), a.data);
    }
  }

  lemma WireThenWrite(key: Key, wire: seq<Octet>, nonce: nat, data: seq<byte>)
    requires Complete(key, wire)
    ensures Complete(key, wire + Framed(key, nonce, data))
    ensures Stream(key, wire + Framed(key, nonce, data)) == Stream(key, wire) + data
  {
    FramedIsComplete(key, nonce, data);
    CompleteAppend(key, wire, Framed(key, nonce, data));
  }

  lemma StreamDecide(client: Client, session: Session, s: State)
    requires client.Valid() && Inv(client, session, s) && Enabled(client, session, s, Decide)
    ensures StreamInv(client, session, Apply(client, session, s, Decide))
  {
    var t := Apply(client, session, s, Decide);
    if Authenticate(session, s.taken).Accept? {
      AcceptedOpening(client, session, s.client, s.taken, s.c2s + s.toSend);
      assert Wire(t) == [];
      assert t.leftover == [];
    }
  }

  lemma StreamDeliver(client: Client, session: Session, s: State)
    requires Inv(client, session, s) && Enabled(client, session, s, Deliver)
    ensures StreamInv(client, session, Apply(client, session, s, Deliver))
  {
    var t := Apply(client, session, s, Deliver);
    var key, rest := client.SessionKey(session.serverNonce), s.c2s + s.toSend;
    FrameOfPrefix(s.raw, rest);
    assert AfterFrame(Wire(s)) == Wire(t);
    StreamStep(key, Wire(s), HeaderLength(s.raw));
    Assoc(s.received, FramePlain(key, s.raw), Stream(key, Wire(t)));
  }

  /** The remaining steps send nothing of the client's stream. */
  lemma StreamElsewhere(client: Client, session: Session, s: State, a: Action)
    requires Inv(client, session, s) && Enabled(client, session, s, a)
    requires a.AwaitStatus? || a.ReadStatus? || a.Challenge? || a.SendStatus?
    ensures StreamInv(client, session, Apply(client, session, s, a))
  {
    assert Wire(Apply(client, session, s, a)) == Wire(s);
  }

  lemma StreamReadChallenge(client: Client, session: Session, s: State)
    requires Inv(client, session, s) && Enabled(client, session, s, ReadChallenge)
    ensures StreamInv(client, session, Apply(client, session, s, ReadChallenge))
  {
    ReadChallengeNonce(client, session, s);
    Assoc(s.taken, s.c2s, client.Proof(session.serverNonce));
    assert s.taken + (s.c2s + []) == s.taken + s.c2s;
  }

  lemma StreamStepInv(client: Client, session: Session, s: State, a: Action)
    requires client.Valid() && Inv(client, session, s) && Enabled(client, session, s, a)
    ensures StreamInv(client, session, Apply(client, session, s, a))
  {
    match a
    case ReadChallenge => StreamReadChallenge(client, session, s);
    case ClientWrite(_, _) => StreamClientWrite(client, session, s, a);
    case Decide => StreamDecide(client, session, s);
    case Deliver => StreamDeliver(client, session, s);
    case Push(_) => StreamMoves(client, session, s, a);
    case Fill(_) => StreamMoves(client, session, s, a);
    case RawRead(_) => StreamMoves(client, session, s, a);
    case _ => StreamElsewhere(client, session, s, a);
  }

  lemma ReadChallengeNonce(client: Client, session: Session, s: State)
    requires Inv(client, session, s) && Enabled(client, session, s, ReadChallenge)
    ensures Field(s.s2c, 0, NONCE) == session.serverNonce && s.s2c[NONCE..] == []
  {
    assert s.s2c[0..NONCE] == s.s2c == Raws(session.serverNonce);
    ValuesOfRaws(session.serverNonce);
  }

  lemma {:induction false} RunInv(client: Client, session: Session, s: State, actions: seq<Action>)
    requires client.Valid() && Inv(client, session, s) && CanRun(client, session, s, actions)
    ensures Inv(client, session, Run(client, session, s, actions))
    decreases |actions|
  {
    if actions != [] {
      ReplyStep(client, session, s, actions[0]);
      StreamStepInv(client, session, s, actions[0]);
      RunInv(client, session, Apply(client, session, s, actions[0]), actions[1..]);
    }
  }

  /** In every run of an honest client with the server, under every chunking: when the server has
      authenticated the client, the dropped reader held nothing and the session keys agree; what
      the server's SecureConn delivers is a prefix of what the client application wrote, and all
      of it once nothing is under way. */
  lemma HandOverLosesNothing(client: Client, session: Session, actions: seq<Action>)
    requires client.Valid() && CanRun(client, session, Init(client), actions)
    ensures var s := Run(client, session, Init(client), actions);
      && (s.server.Serving? ==> s.leftover == [] && s.server.key == client.SessionKey(session.serverNonce))
      && s.received <= DataOf(s.written)
      && (s.server.Serving? && s.toSend == [] && s.c2s == [] && s.raw == [] ==> s.received == DataOf(s.written))
  {
    InitInv(client, session);
    RunInv(client, session, Init(client), actions);
    var s := Run(client, session, Init(client), actions);
    if s.server.Serving? && s.toSend == [] && s.c2s == [] && s.raw == [] {
      assert Wire(s) == [];
      assert s.received + [] == s.received;
    }
  }

  /** The framing never blocks an honest client's stream: when the client's write is out, the next
      frame either opens from what SecureConn has read or has octets still to arrive. */
  lemma StreamNeverSticks(client: Client, session: Session, actions: seq<Action>)
    requires client.Valid() && CanRun(client, session, Init(client), actions)
    ensures var s := Run(client, session, Init(client), actions);
      s.server.Serving? && s.toSend == [] && s.raw + s.c2s != [] ==>
        FrameOpens(s.server.key, s.raw) || (s.c2s != [] && Wanted(s.raw) >= 1)
  {
    InitInv(client, session);
    RunInv(client, session, Init(client), actions);
    var s := Run(client, session, Init(client), actions);
    if s.server.Serving? && s.toSend == [] && s.raw + s.c2s != [] {
      assert Wire(s) == s.raw + s.c2s;
      WholeWhenArrived(s.server.key, s.raw, s.c2s);
    }
  }

  lemma WholeWhenArrived(key: Key, raw: seq<Octet>, c2s: seq<Octet>)
    requires raw + c2s != [] && Complete(key, raw + c2s)
    ensures FrameOpens(key, raw) || (c2s != [] && Wanted(raw) >= 1)
  {
    var wire := raw + c2s;
    if |raw| >= 4 {
      assert wire[..4] == raw[..4];
      if |raw| >= 4 + HeaderLength(raw) {
        assert wire[4..4 + HeaderLength(wire)] == raw[4..4 + HeaderLength(raw)];
      }
    }
  }
}
