// The opening of a tunnel connection: pkg/tunnel/protocol.go, protocol_v2.go, server_auth.go
// and client.go. `Authenticate` is what the server makes of the octets a client has sent so
// far; the methods read those octets through a bufio.Reader or a SecureConn.
module Handshake {
  import opened Bytes
  import opened Text
  import opened Crypto
  import opened Net
  import opened Auth
  import opened SecureStream
  import Clock

  const NONCE := 32
  const MAX_DESTINATION := 1024
  const MAX_HELLO_CIPHER := 2048
  const MAX_CLIENT_ID := 128
  const MAGIC: seq<byte> := [0x43, 0x48, 0x32, 0x00]
  const V2: byte := 2
  const LEGACY: byte := 1
  const SECOND := 1_000_000_000

  type nonce = s: seq<byte> | |s| == NONCE witness seq(NONCE, _ => 0)

  // ----- Destinations --------------------------------------------------------------------

  predicate ValidDestination(destination: text) {
    match SplitHostPort(Trim(destination))
    case None => false
    case Some(hp) =>
      && Trim(hp.host) != [] && Trim(hp.port) != []
      && Atoi(hp.port).Some? && 0 < Atoi(hp.port).value <= 65535
      && |destination| <= MAX_DESTINATION
  }

  /** A host and a port number make a valid destination, with white space around it or not, exactly when there is a
      host, the port is a real one and the whole has at most 1024 octets. */
  lemma ValidDestinationIff(lead: text, host: text, port: nat, tail: text)
    requires AllSpace(lead) && AllSpace(tail) && InkAtEnds(host) && NoBrackets(host)
    ensures var d := lead + (JoinHostPort(host, Itoa(port)) + tail);
      ValidDestination(d) <==> host != [] && 1 <= port <= 65535 && |d| <= 1024
  {
    var digits := Itoa(port);
    var d := JoinHostPort(host, digits);
    assert forall c :: c in digits ==> IsDigit(c);
    assert digits[0] in digits && digits[|digits| - 1] in digits;
    assert d[|d| - 1] == digits[|digits| - 1];
    TrimIs(lead, d, tail);
    SplitOfJoin(host, digits);
    AtoiOfItoa(port);
    BlankIff(host);
    BlankIff(digits);
  }

  lemma ValidDestinationNotEmpty(destination: text)
    requires ValidDestination(destination)
    ensures 0 < |destination| <= MAX_DESTINATION
  {
  }

  // ----- What an honest client sends -------------------------------------------------------

  /** Auth v2 hello: magic, client id and the client's nonce, all in clear. */
  function HelloV2(id: text, clientNonce: nonce): seq<Octet> {
    Raws(MAGIC + PutUint16(|id|) + id + clientNonce)
  }

  function ProofPlain(destination: text): seq<byte> {
    [V2] + PutUint16(|destination|) + destination
  }

  /** Auth v2 proof, sealed under a key both nonces went into. */
  function ProofV2(secret: text, clientNonce: nonce, serverNonce: nonce, destination: text, seal: nat): seq<Octet> {
    var encrypted := Seal(AuthV2Key(secret, clientNonce, serverNonce), seal, ProofPlain(destination));
    Raws(PutUint16(|encrypted|)) + encrypted
  }

  function LegacyPlain(timestamp: int, destination: text): seq<byte> {
    [LEGACY] + PutInt64(timestamp) + PutUint16(|destination|) + destination
  }

  /** buildClientHello. */
  function HelloLegacy(psk: text, clientNonce: nonce, timestamp: int, destination: text, seal: nat): seq<Octet> {
    var encrypted := Seal(LegacyKey(psk, clientNonce), seal, LegacyPlain(timestamp, destination));
    Raws(clientNonce + PutUint16(|encrypted|)) + encrypted
  }

  // ----- What the server makes of it -----------------------------------------------------------

  datatype Hello = Hello(version: byte, timestamp: int, clientNonce: seq<byte>, destination: text, clientID: text)

  datatype Config = Config(psk: text, clients: Registry, maxClockSkew: Clock.int64)

  /** One connection's surroundings: configuration, the randomness drawn for it, the clock,
      and the nonces the replay cache still remembers. */
  datatype Session = Session(config: Config, serverNonce: nonce, fakeSecret: text, now: int, seen: set<seq<byte>>)

  datatype Outcome =
    | NeedMore(challenged: bool)
    | Reject
    | Accept(consumed: nat, hello: Hello, key: Key)

  function Skew(session: Session): (skew: Clock.int64)
    ensures skew > 0 && (session.config.maxClockSkew <= 0 ==> skew == 120_000_000_000)
  {
    if session.config.maxClockSkew <= 0 then 120 * SECOND else session.config.maxClockSkew
  }

  /** authenticateConn on the octets received so far. */
  function Authenticate(session: Session, s: seq<Octet>): Outcome {
    if |s| < |MAGIC| then NeedMore(false)
    else if Field(s, 0, 4) == MAGIC then
      if session.config.clients == map[] then Reject
      else
        match ScanV2(s)
        case More(challenged) => NeedMore(challenged)
        case Bad => Reject
        case Parts(id, clientNonce, encrypted, end) => CheckProof(session, id, clientNonce, encrypted, end)
    else if Trim(session.config.psk) == [] then Reject
    else
      match ScanLegacy(s)
      case More(challenged) => NeedMore(challenged)
      case Bad => Reject
      case Parts(_, clientNonce, encrypted, end) => CheckLegacy(session, clientNonce, encrypted, end)
  }

  function Field(s: seq<Octet>, from: nat, to: nat): seq<byte>
    requires from <= to <= |s|
  {
    Values(s[from..to])
  }

  /** How far the length-delimited fields of an opening have arrived. */
  datatype Scan =
    | More(challenged: bool)
    | Bad
    | Parts(id: text, clientNonce: nonce, encrypted: seq<Octet>, end: nat)

  function ScanV2(s: seq<Octet>): Scan
    requires |s| >= 4
  {
    if |s| < 6 then More(false)
    else
      var idLen := Uint16(Field(s, 4, 6));
      var body := 6 + idLen + NONCE;
      if idLen < 8 || idLen > MAX_CLIENT_ID then Bad
      else if |s| < body then More(false)
      else ScanProof(s, Field(s, 6, 6 + idLen), Field(s, 6 + idLen, body), body)
  }

  /** After the challenge: a length and the proof. */
  function ScanProof(s: seq<Octet>, id: text, clientNonce: nonce, body: nat): Scan
    requires body <= |s|
  {
    if |s| < body + 2 then More(true)
    else
      var proofLen := Uint16(Field(s, body, body + 2));
      var end := body + 2 + proofLen;
      if proofLen <= 0 || proofLen > MAX_HELLO_CIPHER then Bad
      else if |s| < end then More(true)
      else Parts(id, clientNonce, s[body + 2..end], end)
  }

  function ScanLegacy(s: seq<Octet>): Scan {
    if |s| < NONCE + 2 then More(false)
    else
      var helloLen := Uint16(Field(s, NONCE, NONCE + 2));
      var end := NONCE + 2 + helloLen;
      if helloLen <= 0 || helloLen > MAX_HELLO_CIPHER then Bad
      else if |s| < end then More(false)
      else Parts([], Field(s, 0, NONCE), s[NONCE + 2..end], end)
  }

  /** The secret the challenge flow goes on with, known client or not. */
  function SecretFor(session: Session, id: text): text {
    match Resolve(session.config.clients, id, session.now)
    case Some(credential) => credential.secret
    case None => session.fakeSecret
  }

  function CheckProof(session: Session, id: text, clientNonce: nonce, encrypted: seq<Octet>, end: nat): Outcome {
    var secret := SecretFor(session, id);
    if !ValidClientSecret(secret) then Reject
    else
      match Open(AuthV2Key(secret, clientNonce, session.serverNonce), encrypted)
      case None => Reject
      case Some(plain) =>
        if Resolve(session.config.clients, id, session.now).None? then Reject
        else if |plain| < 3 || plain[0] != V2 then Reject
        else
          var destLen := Uint16(plain[1..3]);
          if destLen <= 0 || destLen > MAX_DESTINATION || |plain| != 3 + destLen then Reject
          else if !ValidDestination(plain[3..]) then Reject
          else Accept(end, Hello(V2, 0, clientNonce, plain[3..], id),
                      SessionV2Key(secret, clientNonce, session.serverNonce))
  }

  function CheckLegacy(session: Session, clientNonce: nonce, encrypted: seq<Octet>, end: nat): Outcome {
    match Open(LegacyKey(session.config.psk, clientNonce), encrypted)
    case None => Reject
    case Some(plain) =>
      if |plain| < 11 || plain[0] != LEGACY then Reject
      else
        var timestamp, destLen := Int64(plain[1..9]), Uint16(plain[9..11]);
        if destLen <= 0 || destLen > MAX_DESTINATION || |plain| != 11 + destLen then Reject
        else if !ValidDestination(plain[11..]) then Reject
        else if !Clock.HelloFresh(Skew(session), timestamp, session.now) then Reject
        else if clientNonce in session.seen then Reject
        else Accept(end, Hello(LEGACY, timestamp, clientNonce, plain[11..], []),
                    LegacyKey(session.config.psk, clientNonce))
  }

  // ----- The verdict depends on the opening octets only -------------------------------------------

  lemma FieldOfPrefix(s: seq<Octet>, more: seq<Octet>, from: nat, to: nat)
    requires from <= to <= |s|
    ensures Field(s + more, from, to) == Field(s, from, to) && (s + more)[from..to] == s[from..to]
  {
    assert (s + more)[from..to] == s[from..to];
  }

  lemma ScanProofIsFinal(s: seq<Octet>, more: seq<Octet>, id: text, clientNonce: nonce, body: nat)
    requires body <= |s| && !ScanProof(s, id, clientNonce, body).More?
    ensures ScanProof(s + more, id, clientNonce, body) == ScanProof(s, id, clientNonce, body)
  {
    FieldOfPrefix(s, more, body, body + 2);
    var end := body + 2 + Uint16(Field(s, body, body + 2));
    if end <= |s| {
      FieldOfPrefix(s, more, body + 2, end);
    }
  }

  lemma ScanV2IsFinal(s: seq<Octet>, more: seq<Octet>)
    requires |s| >= 4 && !ScanV2(s).More?
    ensures ScanV2(s + more) == ScanV2(s)
  {
    FieldOfPrefix(s, more, 4, 6);
    var idLen := Uint16(Field(s, 4, 6));
    var body := 6 + idLen + NONCE;
    if 8 <= idLen <= MAX_CLIENT_ID {
      FieldOfPrefix(s, more, 6, 6 + idLen);
      FieldOfPrefix(s, more, 6 + idLen, body);
      ScanProofIsFinal(s, more, Field(s, 6, 6 + idLen), Field(s, 6 + idLen, body), body);
    }
  }

  lemma ScanLegacyIsFinal(s: seq<Octet>, more: seq<Octet>)
    requires !ScanLegacy(s).More?
    ensures ScanLegacy(s + more) == ScanLegacy(s)
  {
    FieldOfPrefix(s, more, 0, NONCE);
    FieldOfPrefix(s, more, NONCE, NONCE + 2);
    var end := NONCE + 2 + Uint16(Field(s, NONCE, NONCE + 2));
    if end <= |s| {
      FieldOfPrefix(s, more, NONCE + 2, end);
    }
  }

  /** Once the server has decided, later octets change nothing; and it consumed only what it had. */
  lemma VerdictIsFinal(session: Session, s: seq<Octet>, more: seq<Octet>)
    requires !Authenticate(session, s).NeedMore?
    ensures Authenticate(session, s + more) == Authenticate(session, s)
    ensures Authenticate(session, s).Accept? ==> Authenticate(session, s).consumed <= |s|
  {
    FieldOfPrefix(s, more, 0, 4);
    if Field(s, 0, 4) == MAGIC {
      if session.config.clients != map[] {
        ScanV2IsFinal(s, more);
      }
    } else if Trim(session.config.psk) != [] {
      ScanLegacyIsFinal(s, more);
    }
  }

  /** A hello whose id, proof or legacy length is out of range is refused at once, whatever follows it. */
  lemma BadLengthIsRefused(session: Session, id: text, clientNonce: nonce, n: nat, rest: seq<Octet>)
    requires n < 0x1_0000
    ensures n < 8 || n > 128 ==> Authenticate(session, Raws(MAGIC + PutUint16(n)) + rest) == Reject
    ensures 8 <= |id| <= 128 && (n == 0 || n > 2048) ==>
      Authenticate(session, HelloV2(id, clientNonce) + (Raws(PutUint16(n)) + rest)) == Reject
    ensures clientNonce[..4] != MAGIC && (n == 0 || n > 2048) ==>
      Authenticate(session, Raws(clientNonce + PutUint16(n)) + rest) == Reject
  {
    Uint16OfPut(n);
    BadIdLength(session, n, rest);
    if 8 <= |id| <= 128 {
      BadProofLength(session, id, clientNonce, n, rest);
    }
    BadLegacyLength(session, clientNonce, n, rest);
  }

  lemma BadIdLength(session: Session, n: nat, rest: seq<Octet>)
    requires Uint16(PutUint16(n)) == n
    ensures n < 8 || n > 128 ==> Authenticate(session, Raws(MAGIC + PutUint16(n)) + rest) == Reject
  {
    var s := Raws(MAGIC + PutUint16(n)) + rest;
    assert Field(s, 0, 4) == MAGIC && Field(s, 4, 6) == PutUint16(n);
  }

  lemma BadProofLength(session: Session, id: text, clientNonce: nonce, n: nat, rest: seq<Octet>)
    requires 8 <= |id| <= 128 && Uint16(PutUint16(n)) == n
    ensures n == 0 || n > 2048 ==>
      Authenticate(session, HelloV2(id, clientNonce) + (Raws(PutUint16(n)) + rest)) == Reject
  {
    Uint16OfPut(|id|);
    HelloThenLength(id, clientNonce, n, rest);
  }

  lemma HelloThenLength(id: text, clientNonce: nonce, n: nat, rest: seq<Octet>)
    ensures var s, body := HelloV2(id, clientNonce) + (Raws(PutUint16(n)) + rest), 6 + |id| + NONCE;
      && |s| >= body + 2
      && Field(s, 0, 4) == MAGIC && Field(s, 4, 6) == PutUint16(|id|) && Field(s, body, body + 2) == PutUint16(n)
  {
  }

  lemma BadLegacyLength(session: Session, clientNonce: nonce, n: nat, rest: seq<Octet>)
    requires Uint16(PutUint16(n)) == n
    ensures clientNonce[..4] != MAGIC && (n == 0 || n > 2048) ==>
      Authenticate(session, Raws(clientNonce + PutUint16(n)) + rest) == Reject
  {
    var s := Raws(clientNonce + PutUint16(n)) + rest;
    assert Field(s, 0, 4) == clientNonce[..4] && Field(s, NONCE, NONCE + 2) == PutUint16(n);
  }

  // ----- Auth v2 agreement ----------------------------------------------------------------------------

  lemma ProofPlainParts(destination: text)
    requires 0 < |destination| <= MAX_DESTINATION
    ensures var plain := ProofPlain(destination);
      plain[0] == V2 && Uint16(plain[1..3]) == |destination| && plain[3..] == destination
  {
    var plain := ProofPlain(destination);
    assert plain[1..3] == PutUint16(|destination|);
    Uint16OfPut(|destination|);
  }

  lemma HelloV2Parts(id: text, clientNonce: nonce, rest: seq<Octet>)
    requires 8 <= |id| <= MAX_CLIENT_ID
    ensures var s := HelloV2(id, clientNonce) + rest; var body := 6 + |id| + NONCE;
      && |HelloV2(id, clientNonce)| == body <= |s|
      && Field(s, 0, 4) == MAGIC && Uint16(Field(s, 4, 6)) == |id|
      && Field(s, 6, 6 + |id|) == id && Field(s, 6 + |id|, body) == clientNonce
  {
    var length := PutUint16(|id|);
    var clear := MAGIC + length + id + clientNonce;
    FieldOfRaws(clear, rest, 0, 4);
    FieldOfRaws(clear, rest, 4, 6);
    FieldOfRaws(clear, rest, 6, 6 + |id|);
    FieldOfRaws(clear, rest, 6 + |id|, |clear|);
    assert clear[0..4] == MAGIC && clear[4..6] == length;
    assert clear[6..6 + |id|] == id && clear[6 + |id|..] == clientNonce;
    Uint16OfPut(|id|);
  }

  lemma FieldOfRaws(clear: seq<byte>, rest: seq<Octet>, from: nat, to: nat)
    requires from <= to <= |clear|
    ensures Field(Raws(clear) + rest, from, to) == clear[from..to]
  {
    assert (Raws(clear) + rest)[from..to] == Raws(clear[from..to]);
    ValuesOfRaws(clear[from..to]);
  }

  /** What the server does with an honest client's hello and proof, whatever secret it used. */
  lemma HonestV2(session: Session, id: text, secret: text, clientNonce: nonce, destination: text, seal: nat)
    requires session.config.clients != map[]
    requires 8 <= |id| <= MAX_CLIENT_ID && ValidDestination(destination)
    ensures var encrypted := Seal(AuthV2Key(secret, clientNonce, session.serverNonce), seal, ProofPlain(destination));
      var s := HelloV2(id, clientNonce) + ProofV2(secret, clientNonce, session.serverNonce, destination, seal);
      && |encrypted| <= MAX_HELLO_CIPHER
      && Authenticate(session, s) == CheckProof(session, id, clientNonce, encrypted, |s|)
  {
    var encrypted := Seal(AuthV2Key(secret, clientNonce, session.serverNonce), seal, ProofPlain(destination));
    var proof := ProofV2(secret, clientNonce, session.serverNonce, destination, seal);
    var hello := HelloV2(id, clientNonce);
    ProofFits(AuthV2Key(secret, clientNonce, session.serverNonce), destination, seal);
    ScanOfHonestHello(id, clientNonce, proof);
    ScanOfHonestProof(hello, id, clientNonce, encrypted);
    ScannedV2(session, hello + proof, id, clientNonce, encrypted, |hello + proof|);
  }

  lemma ProofFits(key: Key, destination: text, seal: nat)
    requires ValidDestination(destination)
    ensures 0 < |Seal(key, seal, ProofPlain(destination))| <= MAX_HELLO_CIPHER
  {
    ValidDestinationNotEmpty(destination);
  }

  lemma ScannedV2(session: Session, s: seq<Octet>, id: text, clientNonce: nonce, encrypted: seq<Octet>, end: nat)
    requires session.config.clients != map[] && |s| >= 4 && Field(s, 0, 4) == MAGIC
    requires ScanV2(s) == Parts(id, clientNonce, encrypted, end)
    ensures Authenticate(session, s) == CheckProof(session, id, clientNonce, encrypted, end)
  {
  }

  lemma ScanOfHonestHello(id: text, clientNonce: nonce, rest: seq<Octet>)
    requires 8 <= |id| <= MAX_CLIENT_ID
    ensures var s := HelloV2(id, clientNonce) + rest;
      && |s| >= 4 && Field(s, 0, 4) == MAGIC
      && |HelloV2(id, clientNonce)| <= |s|
      && ScanV2(s) == ScanProof(s, id, clientNonce, |HelloV2(id, clientNonce)|)
  {
    HelloV2Parts(id, clientNonce, rest);
  }

  lemma ScanOfHonestProof(hello: seq<Octet>, id: text, clientNonce: nonce, encrypted: seq<Octet>)
    requires 0 < |encrypted| <= MAX_HELLO_CIPHER
    ensures var s := hello + (Raws(PutUint16(|encrypted|)) + encrypted);
      ScanProof(s, id, clientNonce, |hello|) == Parts(id, clientNonce, encrypted, |s|)
  {
    var s := hello + (Raws(PutUint16(|encrypted|)) + encrypted);
    var length := PutUint16(|encrypted|);
    assert s[|hello|..|hello| + 2] == Raws(length);
    ValuesOfRaws(length);
    Uint16OfPut(|encrypted|);
    assert s[|hello| + 2..|s|] == encrypted;
  }

  /** An honest client completes exactly when its id is registered, enabled and not expired, and the
      secret it holds is, byte for byte, the registered (trimmed) one; both ends then hold the same
      session key, the server reads the client's destination and identity, and consumes all that was
      sent. */
  lemma AuthV2Agreement(session: Session, auth: ClientAuth, clientNonce: nonce, destination: text, seal: nat)
    requires auth.UsesV2() && auth.Valid() && ValidDestination(destination)
    requires ValidRegistry(session.config.clients)
    ensures var id, clients := Trim(auth.clientID), session.config.clients;
      var s := HelloV2(id, clientNonce)
        + ProofV2(auth.clientSecret, clientNonce, session.serverNonce, destination, seal);
      && (Authenticate(session, s).Accept? <==>
            && id in clients && clients[id].enabled
            && (clients[id].expires == Never || (clients[id].expires.At? && session.now < clients[id].expires.moment))
            && auth.clientSecret == clients[id].secret)
      && (Authenticate(session, s).Accept? ==>
            Authenticate(session, s) == Accept(|s|, Hello(V2, 0, clientNonce, destination, id),
              SessionV2Key(auth.clientSecret, clientNonce, session.serverNonce)))
  {
    var id, clients := Trim(auth.clientID), session.config.clients;
    var proof := ProofV2(auth.clientSecret, clientNonce, session.serverNonce, destination, seal);
    TrimTwice(auth.clientID);
    ScanOfHonestHello(id, clientNonce, proof);
    if clients != map[] {
      HonestV2(session, id, auth.clientSecret, clientNonce, destination, seal);
      HonestVerdict(session, id, auth.clientSecret, clientNonce, destination, seal, |HelloV2(id, clientNonce) + proof|);
    }
  }

  lemma HonestVerdict(session: Session, id: text, secret: text, clientNonce: nonce, destination: text, seal: nat,
                      end: nat)
    requires ValidDestination(destination) && ValidRegistry(session.config.clients) && Trim(id) == id
    ensures var encrypted := Seal(AuthV2Key(secret, clientNonce, session.serverNonce), seal, ProofPlain(destination));
      var verdict := CheckProof(session, id, clientNonce, encrypted, end);
      if Live(session.config.clients, id, session.now) && secret == session.config.clients[id].secret
      then verdict == Accept(end, Hello(V2, 0, clientNonce, destination, id),
                             SessionV2Key(secret, clientNonce, session.serverNonce))
      else !verdict.Accept?
  {
    if Live(session.config.clients, id, session.now) {
      assert ValidEntry(id, session.config.clients[id]) && SecretFor(session, id) == session.config.clients[id].secret;
      CheckOfHonestProof(session, id, secret, clientNonce, destination, seal, end);
    }
  }

  lemma CheckOfHonestProof(session: Session, id: text, secret: text, clientNonce: nonce, destination: text, seal: nat,
                           end: nat)
    requires ValidDestination(destination) && Resolve(session.config.clients, id, session.now).Some?
    requires ValidClientSecret(SecretFor(session, id))
    ensures var encrypted := Seal(AuthV2Key(secret, clientNonce, session.serverNonce), seal, ProofPlain(destination));
      CheckProof(session, id, clientNonce, encrypted, end)
        == if secret != SecretFor(session, id) then Reject
           else Accept(end, Hello(V2, 0, clientNonce, destination, id),
                       SessionV2Key(secret, clientNonce, session.serverNonce))
  {
    var key := AuthV2Key(secret, clientNonce, session.serverNonce);
    if secret == SecretFor(session, id) {
      OpenOfSeal(key, seal, ProofPlain(destination));
      ValidDestinationNotEmpty(destination);
      ProofPlainParts(destination);
    } else {
      OtherKeyFails(key, AuthV2Key(SecretFor(session, id), clientNonce, session.serverNonce), seal,
                    ProofPlain(destination));
    }
  }

  /** A client that keeps white space around its secret passes its own validation and is refused. */
  lemma PaddedSecretIsRefused(session: Session, auth: ClientAuth, clientNonce: nonce, destination: text, seal: nat)
    requires auth.UsesV2() && auth.Valid() && ValidDestination(destination)
    requires ValidRegistry(session.config.clients)
    requires Live(session.config.clients, auth.clientID, session.now)
    requires session.config.clients[Trim(auth.clientID)].secret == Trim(auth.clientSecret)
    requires auth.clientSecret != Trim(auth.clientSecret)
    ensures Authenticate(session, HelloV2(Trim(auth.clientID), clientNonce)
      + ProofV2(auth.clientSecret, clientNonce, session.serverNonce, destination, seal)) == Reject
  {
    AuthV2Agreement(session, auth, clientNonce, destination, seal);
    HonestV2(session, Trim(auth.clientID), auth.clientSecret, clientNonce, destination, seal);
  }

  ghost predicate IsProof(encrypted: seq<Octet>, key: Key, destination: text) {
    exists seal :: encrypted == Seal(key, seal, ProofPlain(destination))
  }

  /** Whatever a peer sends, Auth v2 acceptance means that the id on the wire is registered, enabled and
      not expired, and that a proof naming the destination was sealed under the registered secret and
      this connection's two nonces. */
  lemma AcceptedV2IsProven(session: Session, s: seq<Octet>)
    requires Authenticate(session, s).Accept? && Authenticate(session, s).hello.version == V2
    ensures var Accept(end, hello, key) := Authenticate(session, s);
      var id, clients := Trim(hello.clientID), session.config.clients;
      && id in clients && clients[id].enabled
      && (clients[id].expires == Never || (clients[id].expires.At? && session.now < clients[id].expires.moment))
      && key == SessionV2Key(clients[id].secret, hello.clientNonce, session.serverNonce)
      && end <= |s|
      && exists start: nat :: start <= end
           && IsProof(s[start..end], AuthV2Key(clients[id].secret, hello.clientNonce, session.serverNonce),
                      hello.destination)
  {
    assert Field(s, 0, 4) == MAGIC;
    PartsOfV2(s);
    var Parts(id, clientNonce, encrypted, end) := ScanV2(s);
    ProofNamesDestination(session, id, clientNonce, encrypted, end);
  }

  /** That id, and the nonce, are the ones the peer's hello starts with. */
  lemma AcceptedV2IsOnWire(session: Session, s: seq<Octet>)
    requires Authenticate(session, s).Accept? && Authenticate(session, s).hello.version == V2
    ensures var hello := Authenticate(session, s).hello;
      && 6 + |hello.clientID| + NONCE <= |s|
      && Values(s[..6 + |hello.clientID| + NONCE])
           == MAGIC + PutUint16(|hello.clientID|) + hello.clientID + hello.clientNonce
  {
    assert Field(s, 0, 4) == MAGIC;
    WireOfV2(s);
  }

  lemma ValuesOfBoth(s: seq<Octet>, from: nat, to: nat)
    requires from <= to <= |s|
    ensures Values(s[..to]) == Values(s[..from]) + Field(s, from, to)
  {
  }

  lemma WireOfV2(s: seq<Octet>)
    requires |s| >= 4 && Field(s, 0, 4) == MAGIC && ScanV2(s).Parts?
    ensures var Parts(id, clientNonce, _, end) := ScanV2(s);
      6 + |id| + NONCE <= |s| && Values(s[..6 + |id| + NONCE]) == MAGIC + PutUint16(|id|) + id + clientNonce
  {
    var length, idLen := Field(s, 4, 6), Uint16(Field(s, 4, 6));
    var body := 6 + idLen + NONCE;
    PutOfUint16(length);
    ValuesOfBoth(s, 6 + idLen, body);
    ValuesOfBoth(s, 6, 6 + idLen);
    ValuesOfBoth(s, 4, 6);
    assert s[..4] == s[0..4];
  }

  lemma PartsOfV2(s: seq<Octet>)
    requires |s| >= 4 && ScanV2(s).Parts?
    ensures var Parts(_, _, encrypted, end) := ScanV2(s);
      |encrypted| <= end <= |s| && encrypted == s[end - |encrypted|..end]
  {
    var idLen := Uint16(Field(s, 4, 6));
    var body := 6 + idLen + NONCE;
    var end := body + 2 + Uint16(Field(s, body, body + 2));
    assert s[end - |s[body + 2..end]|..end] == s[body + 2..end];
  }

  lemma ProofNamesDestination(session: Session, id: text, clientNonce: nonce, encrypted: seq<Octet>, end: nat)
    requires CheckProof(session, id, clientNonce, encrypted, end).Accept?
    ensures var destination := CheckProof(session, id, clientNonce, encrypted, end).hello.destination;
      IsProof(encrypted, AuthV2Key(SecretFor(session, id), clientNonce, session.serverNonce), destination)
  {
    var key := AuthV2Key(SecretFor(session, id), clientNonce, session.serverNonce);
    OnlySealsOpen(key, encrypted);
    var plain := Open(key, encrypted).value;
    PlainIsProof(plain);
  }

  lemma PlainIsProof(plain: seq<byte>)
    requires |plain| >= 3 && plain[0] == V2 && Uint16(plain[1..3]) == |plain| - 3
    ensures plain == ProofPlain(plain[3..])
  {
    PutOfUint16(plain[1..3]);
    assert plain == [plain[0]] + plain[1..3] + plain[3..];
  }

  /** An honest client that has sent only its hello has not been judged yet. */
  lemma HelloV2IsNotEnough(session: Session, id: text, clientNonce: nonce)
    requires session.config.clients != map[] && 8 <= |id| <= MAX_CLIENT_ID
    ensures Authenticate(session, HelloV2(id, clientNonce)) == NeedMore(true)
  {
    ScanOfHonestHello(id, clientNonce, []);
    assert HelloV2(id, clientNonce) + [] == HelloV2(id, clientNonce);
  }

  // ----- Legacy agreement -----------------------------------------------------------------------------

  lemma LegacyPlainParts(timestamp: int, destination: text)
    requires |destination| <= MAX_DESTINATION
    ensures var plain := LegacyPlain(timestamp, destination);
      |plain| == 11 + |destination| && plain[0] == LEGACY && plain[1..9] == PutInt64(timestamp)
      && Uint16(plain[9..11]) == |destination| && plain[11..] == destination
  {
    var plain := LegacyPlain(timestamp, destination);
    assert plain[9..11] == PutUint16(|destination|);
    Uint16OfPut(|destination|);
  }

  lemma ScanOfHonestLegacy(clientNonce: nonce, encrypted: seq<Octet>)
    requires 0 < |encrypted| <= MAX_HELLO_CIPHER
    ensures var s := Raws(clientNonce + PutUint16(|encrypted|)) + encrypted;
      |s| >= 4 && Field(s, 0, 4) == clientNonce[..4]
      && ScanLegacy(s) == Parts([], clientNonce, encrypted, |s|)
  {
    var length := PutUint16(|encrypted|);
    var s := Raws(clientNonce + length) + encrypted;
    Uint16OfPut(|encrypted|);
    var clear := clientNonce + length;
    FieldOfRaws(clear, encrypted, 0, 4);
    FieldOfRaws(clear, encrypted, 0, NONCE);
    FieldOfRaws(clear, encrypted, NONCE, NONCE + 2);
    assert clear[0..4] == clientNonce[..4] && clear[0..NONCE] == clientNonce && clear[NONCE..NONCE + 2] == length;
    assert s[NONCE + 2..|s|] == encrypted;
  }

  /** No octets sealed by legacy clients alone get through the Auth v2 path. */
  lemma LegacySealsFailV2(session: Session, s: seq<Octet>)
    requires forall o :: o in s && o.Sealed? ==> o.key.LegacyKey?
    requires |s| >= 4 && Field(s, 0, 4) == MAGIC
    ensures !Authenticate(session, s).Accept?
  {
    if ScanV2(s).Parts? {
      PartsOfV2(s);
      var Parts(id, clientNonce, encrypted, end) := ScanV2(s);
      var key := AuthV2Key(SecretFor(session, id), clientNonce, session.serverNonce);
      assert encrypted != [] ==> encrypted[0] in s;
    }
  }

  /** A legacy hello is accepted exactly when its nonce does not look like the Auth v2 preface,
      both ends hold the same key text, the nonce is new, and the timestamp is within the skew of the
      server's clock or at least 2^63 nanoseconds ahead of it; the server then consumes the whole hello. */
  lemma LegacyAgreement(session: Session, psk: text, clientNonce: nonce, timestamp: int, destination: text, seal: nat)
    requires ValidDestination(destination)
    requires Clock.MIN <= timestamp <= Clock.MAX
    ensures var s := HelloLegacy(psk, clientNonce, timestamp, destination, seal);
      var at := Clock.UnixTime(timestamp);
      && (Authenticate(session, s).Accept? <==>
            && clientNonce[..4] != MAGIC
            && Trim(psk) != [] && session.config.psk == psk
            && (Clock.InWindow(Skew(session), at, session.now) || Clock.FarAhead(at, session.now))
            && clientNonce !in session.seen)
      && (Authenticate(session, s).Accept? ==>
            Authenticate(session, s)
              == Accept(|s|, Hello(LEGACY, timestamp, clientNonce, destination, []), LegacyKey(psk, clientNonce)))
  {
    ValidDestinationNotEmpty(destination);
    var encrypted := Seal(LegacyKey(psk, clientNonce), seal, LegacyPlain(timestamp, destination));
    var s := HelloLegacy(psk, clientNonce, timestamp, destination, seal);
    LegacyPlainParts(timestamp, destination);
    ScanOfHonestLegacy(clientNonce, encrypted);
    Clock.HelloFreshIff(Skew(session), timestamp, session.now);
    if clientNonce[..4] == MAGIC {
      LegacySealsFailV2(session, s);
    } else if Trim(session.config.psk) != [] {
      assert Authenticate(session, s) == CheckLegacy(session, clientNonce, encrypted, |s|);
      CheckOfHonestLegacy(session, psk, clientNonce, timestamp, destination, seal, |s|);
    }
  }

  lemma CheckOfHonestLegacy(session: Session, psk: text, clientNonce: nonce, timestamp: int, destination: text,
                            seal: nat, end: nat)
    requires ValidDestination(destination)
    requires Clock.MIN <= timestamp <= Clock.MAX
    ensures var encrypted := Seal(LegacyKey(psk, clientNonce), seal, LegacyPlain(timestamp, destination));
      var recent := Clock.HelloFresh(Skew(session), timestamp, session.now);
      CheckLegacy(session, clientNonce, encrypted, end)
        == if session.config.psk == psk && recent && clientNonce !in session.seen
           then Accept(end, Hello(LEGACY, timestamp, clientNonce, destination, []), LegacyKey(psk, clientNonce))
           else Reject
  {
    ValidDestinationNotEmpty(destination);
    var plain := LegacyPlain(timestamp, destination);
    LegacyPlainParts(timestamp, destination);
    Int64OfPut(timestamp);
    if session.config.psk == psk {
      OpenOfSeal(LegacyKey(psk, clientNonce), seal, plain);
    } else {
      OtherKeyFails(LegacyKey(psk, clientNonce), LegacyKey(session.config.psk, clientNonce), seal, plain);
    }
  }

  ghost predicate IsLegacyHello(encrypted: seq<Octet>, key: Key, timestamp: int, destination: text) {
    exists seal :: encrypted == Seal(key, seal, LegacyPlain(timestamp, destination))
  }

  /** Whatever a peer sends, a legacy hello is accepted only with a nonce not remembered and if it was sealed
      under the key text and that nonce, naming the destination and a timestamp that passes the clock. */
  lemma AcceptedLegacyIsProven(session: Session, s: seq<Octet>, end: nat, hello: Hello, key: Key)
    requires Authenticate(session, s) == Accept(end, hello, key) && hello.version != V2
    ensures NONCE + 2 <= end <= |s| && hello.clientNonce == Values(s[..NONCE]) && hello.clientNonce[..4] != MAGIC
    ensures Trim(session.config.psk) != [] && key == LegacyKey(session.config.psk, hello.clientNonce)
    ensures hello.clientNonce !in session.seen && Clock.MIN <= hello.timestamp <= Clock.MAX
    ensures var at := Clock.UnixTime(hello.timestamp);
      Clock.InWindow(Skew(session), at, session.now) || Clock.FarAhead(at, session.now)
    ensures IsLegacyHello(s[NONCE + 2..end], key, hello.timestamp, hello.destination)
  {
    LegacyParts(s);
    var Parts(_, clientNonce, encrypted, stop) := ScanLegacy(s);
    LegacyCheckIsProven(session, clientNonce, encrypted, stop);
  }

  /** Whoever is accepted, in either version, has named a valid destination. */
  lemma AcceptedDestinationIsValid(session: Session, s: seq<Octet>)
    requires Authenticate(session, s).Accept?
    ensures ValidDestination(Authenticate(session, s).hello.destination)
  {
    if Field(s, 0, 4) == MAGIC {
      var Parts(id, clientNonce, encrypted, end) := ScanV2(s);
      assert CheckProof(session, id, clientNonce, encrypted, end).Accept?;
    } else {
      var Parts(_, clientNonce, encrypted, end) := ScanLegacy(s);
      assert CheckLegacy(session, clientNonce, encrypted, end).Accept?;
    }
  }

  lemma LegacyParts(s: seq<Octet>)
    requires |s| >= 4 && ScanLegacy(s).Parts?
    ensures var Parts(_, clientNonce, encrypted, end) := ScanLegacy(s);
      && NONCE + 2 <= end <= |s| && clientNonce == Values(s[..NONCE]) && encrypted == s[NONCE + 2..end]
      && clientNonce[..4] == Field(s, 0, 4)
  {
    assert s[..NONCE] == s[0..NONCE];
  }

  lemma LegacyCheckIsProven(session: Session, clientNonce: nonce, encrypted: seq<Octet>, end: nat)
    requires CheckLegacy(session, clientNonce, encrypted, end).Accept?
    ensures var Accept(_, hello, key) := CheckLegacy(session, clientNonce, encrypted, end);
      && key == LegacyKey(session.config.psk, clientNonce) && clientNonce !in session.seen
      && Clock.MIN <= hello.timestamp <= Clock.MAX
      && (var at := Clock.UnixTime(hello.timestamp);
          Clock.InWindow(Skew(session), at, session.now) || Clock.FarAhead(at, session.now))
      && IsLegacyHello(encrypted, key, hello.timestamp, hello.destination)
  {
    var key := LegacyKey(session.config.psk, clientNonce);
    var plain := Open(key, encrypted).value;
    OnlySealsOpen(key, encrypted);
    PlainIsLegacy(plain);
    PutOfInt64(plain[1..9]);
    Clock.HelloFreshIff(Skew(session), Int64(plain[1..9]), session.now);
  }

  lemma PlainIsLegacy(plain: seq<byte>)
    requires |plain| >= 11 && plain[0] == LEGACY && Uint16(plain[9..11]) == |plain| - 11
    ensures plain == LegacyPlain(Int64(plain[1..9]), plain[11..])
  {
    PutOfInt64(plain[1..9]);
    PutOfUint16(plain[9..11]);
    assert plain == [plain[0]] + plain[1..9] + plain[9..11] + plain[11..];
  }

  /** A hello stamped 2^40 seconds after 1970 passes the clock check: with the right key text and a new nonce
      it is accepted, whatever the configured skew. */
  lemma FarFutureHelloIsAccepted(session: Session, clientNonce: nonce, destination: text, seal: nat)
    requires ValidDestination(destination) && Trim(session.config.psk) != []
    requires clientNonce[..4] != MAGIC && clientNonce !in session.seen
    requires 0 <= session.now <= 0x4000_0000_0000_0000
    ensures var s := HelloLegacy(session.config.psk, clientNonce, Clock.FAR_STAMP, destination, seal);
      Authenticate(session, s).Accept?
  {
    Clock.FarStampIsFresh(Skew(session), session.now);
    LegacyAgreement(session, session.config.psk, clientNonce, Clock.FAR_STAMP, destination, seal);
  }
}
