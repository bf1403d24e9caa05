// Both ends of the opening as they run: the server reads through a bufio.Reader
// (pkg/tunnel/server_auth.go, protocol_v2.go, protocol.go), the client through a SecureConn
// (pkg/tunnel/protocol_v2.go, client.go).
module TunnelEnds {
  import opened Bytes
  import opened Text
  import opened Crypto
  import opened Net
  import opened Auth
  import opened SecureStream
  import opened Handshake

  datatype ServerResult =
    | Accepted(hello: Hello, key: Key)
    | Refused
    | SendFailed

  /** io.ReadFull at a known place of the stream s. */
  method ReadField(reader: BufReader, ghost s: seq<Octet>, ghost from: nat, n: nat)
    returns (data: seq<Octet>, ok: bool)
    requires n <= BUFFER_SIZE && |reader.buf| <= BUFFER_SIZE
    requires from <= |s| && reader.Unread() == s[from..]
    modifies reader, reader.conn`incoming, reader.conn`arrivals
    ensures |reader.buf| <= BUFFER_SIZE
    ensures ok <==> from + n <= |s|
    ensures ok ==> data == s[from..from + n] && reader.Unread() == s[from + n..]
  {
    data, ok := reader.ReadFull(n);
    if ok {
      assert s[from..] == data + reader.Unread();
    }
  }

  /** The server accepted what Authenticate accepts in s, and has consumed no more than that. */
  ghost predicate IsVerdict(session: Session, s: seq<Octet>, result: ServerResult, reader: BufReader)
    requires result.Accepted?
    reads reader, reader.conn
  {
    match Authenticate(session, s)
    case Accept(consumed, hello, key) =>
      consumed <= |s| && reader.Unread() == s[consumed..] && hello == result.hello && key == result.key
    case _ => false
  }

  /** authenticateConn: the verdict is the one Authenticate gives on the peer's whole stream, and
      exactly the octets that verdict needed are consumed. */
  method AuthenticateConn(session: Session, conn: Conn, reader: BufReader) returns (result: ServerResult)
    requires reader.conn == conn && reader.buf == []
    modifies reader, conn
    ensures result.Accepted? ==> IsVerdict(session, old(conn.incoming), result, reader)
    ensures result.Refused? ==> !Authenticate(session, old(conn.incoming)).Accept?
    ensures result.Accepted? ==>
      conn.outgoing == old(conn.outgoing)
        + (if result.hello.version == V2 then Raws(session.serverNonce) else [])
    ensures old(conn.outgoing) <= conn.outgoing <= old(conn.outgoing) + Raws(session.serverNonce)
  {
    ghost var s := conn.incoming;
    assert reader.Unread() == s[0..];
    var prefix, ok := reader.Peek(|MAGIC|);
    if !ok {
      return Refused;
    }
    assert Values(prefix) == Field(s, 0, 4);
    if Values(prefix) == MAGIC {
      if session.config.clients == map[] {
        return Refused;
      }
      result := ServerHandshakeV2(session, conn, reader, s);
    } else {
      if Trim(session.config.psk) == [] {
        return Refused;
      }
      result := ReadClientHello(session, reader, s);
    }
  }

  method ServerHandshakeV2(session: Session, conn: Conn, reader: BufReader, ghost s: seq<Octet>)
    returns (result: ServerResult)
    requires reader.conn == conn && |reader.buf| <= BUFFER_SIZE && reader.Unread() == s
    requires |s| >= 4 && Field(s, 0, 4) == MAGIC && session.config.clients != map[]
    modifies reader, conn
    ensures result.Accepted? ==>
      && IsVerdict(session, s, result, reader)
      && result.hello.version == V2
      && conn.outgoing == old(conn.outgoing) + Raws(session.serverNonce)
    ensures result.Refused? ==> !Authenticate(session, s).Accept?
    ensures old(conn.outgoing) <= conn.outgoing <= old(conn.outgoing) + Raws(session.serverNonce)
  {
    var magic, ok := ReadField(reader, s, 0, |MAGIC|);
    var idLenRaw;
    idLenRaw, ok := ReadField(reader, s, 4, 2);
    if !ok {
      return Refused;
    }
    var idLen := Uint16(Values(idLenRaw));
    if idLen < 8 || idLen > MAX_CLIENT_ID {
      return Refused;
    }
    var idRaw;
    idRaw, ok := ReadField(reader, s, 6, idLen);
    if !ok {
      return Refused;
    }
    var nonceRaw;
    nonceRaw, ok := ReadField(reader, s, 6 + idLen, NONCE);
    if !ok {
      return Refused;
    }
    ghost var body := 6 + idLen + NONCE;
    var id, clientNonce: nonce := Values(idRaw), Values(nonceRaw);
    assert ScanV2(s) == ScanProof(s, id, clientNonce, body);

    ok := conn.WriteFull(Raws(session.serverNonce));
    if !ok {
      return SendFailed;
    }

    result := ReadProof(session, reader, s, id, clientNonce, body);
  }

  /** Authenticate's verdict is the proof check's, whatever end it is given. */
  lemma ProofVerdict(session: Session, s: seq<Octet>, id: text, clientNonce: nonce, encrypted: seq<Octet>, end: nat)
    requires |s| >= 4 && Field(s, 0, 4) == MAGIC && session.config.clients != map[]
    requires ScanV2(s) == Parts(id, clientNonce, encrypted, end)
    ensures match CheckProof(session, id, clientNonce, encrypted, 0)
      case Accept(_, hello, key) => Authenticate(session, s) == Accept(end, hello, key) && hello.version == V2
      case _ => !Authenticate(session, s).Accept?
  {
  }

  lemma ProofCases(session: Session, s: seq<Octet>, id: text, clientNonce: nonce, body: nat)
    requires |s| >= 4 && Field(s, 0, 4) == MAGIC && session.config.clients != map[] && body <= |s|
    requires ScanV2(s) == ScanProof(s, id, clientNonce, body)
    ensures |s| < body + 2 ==> !Authenticate(session, s).Accept?
    ensures |s| >= body + 2 ==>
      var length := Uint16(Values(s[body..body + 2]));
      if length <= 0 || length > MAX_HELLO_CIPHER || |s| < body + 2 + length then !Authenticate(session, s).Accept?
      else ScanV2(s) == Parts(id, clientNonce, s[body + 2..body + 2 + length], body + 2 + length)
  {
  }

  /** What follows the challenge: a length and a proof sealed for it. */
  method ReadProof(session: Session, reader: BufReader, ghost s: seq<Octet>, id: text, clientNonce: nonce,
                   ghost body: nat)
    returns (result: ServerResult)
    requires |reader.buf| <= BUFFER_SIZE && body <= |s| && reader.Unread() == s[body..]
    requires |s| >= 4 && Field(s, 0, 4) == MAGIC && session.config.clients != map[]
    requires ScanV2(s) == ScanProof(s, id, clientNonce, body)
    modifies reader, reader.conn`incoming, reader.conn`arrivals
    ensures result.Accepted? ==> IsVerdict(session, s, result, reader) && result.hello.version == V2
    ensures result.Refused? ==> !Authenticate(session, s).Accept?
    ensures !result.SendFailed?
  {
    ProofCases(session, s, id, clientNonce, body);
    var lengthRaw, ok := ReadField(reader, s, body, 2);
    if !ok {
      return Refused;
    }
    var length := Uint16(Values(lengthRaw));
    if length <= 0 || length > MAX_HELLO_CIPHER {
      return Refused;
    }
    var encrypted;
    encrypted, ok := ReadField(reader, s, body + 2, length);
    if !ok {
      return Refused;
    }
    ghost var end := body + 2 + length;
    assert reader.Unread() == s[end..];
    ProofVerdict(session, s, id, clientNonce, encrypted, end);
    match CheckProof(session, id, clientNonce, encrypted, 0)
    case Accept(_, hello, key) =>
      assert Authenticate(session, s) == Accept(end, hello, key);
      return Accepted(hello, key);
    case _ =>
      return Refused;
  }

  /** readClientHello and the replay check. */
  method ReadClientHello(session: Session, reader: BufReader, ghost s: seq<Octet>) returns (result: ServerResult)
    requires |reader.buf| <= BUFFER_SIZE && reader.Unread() == s
    requires |s| >= 4 && Field(s, 0, 4) != MAGIC && Trim(session.config.psk) != []
    modifies reader, reader.conn`incoming, reader.conn`arrivals
    ensures result.Accepted? ==>
      && IsVerdict(session, s, result, reader)
      && result.hello.version == LEGACY
    ensures result.Refused? ==> !Authenticate(session, s).Accept?
    ensures !result.SendFailed?
  {
    var fixed, ok := ReadField(reader, s, 0, NONCE + 2);
    if !ok {
      return Refused;
    }
    var clientNonce: nonce := Values(fixed[..NONCE]);
    var length := Uint16(Values(fixed[NONCE..NONCE + 2]));
    assert fixed[..NONCE] == s[0..NONCE] && fixed[NONCE..NONCE + 2] == s[NONCE..NONCE + 2];
    if length <= 0 || length > MAX_HELLO_CIPHER {
      return Refused;
    }
    var encrypted;
    encrypted, ok := ReadField(reader, s, NONCE + 2, length);
    if !ok {
      return Refused;
    }
    assert ScanLegacy(s) == Parts([], clientNonce, encrypted, NONCE + 2 + length);
    match CheckLegacy(session, clientNonce, encrypted, 0)
    case Accept(_, hello, key) => return Accepted(hello, key);
    case _ => return Refused;
  }

  // ----- The client ------------------------------------------------------------------------------

  datatype ClientError = BadCredentials | BadDestination | ProofTooLarge | SendError | ReadError | EmptyStatus | Denied

  datatype ClientResult = Connected(secure: SecureConn) | Failed(error: ClientError)

  const STATUS_BUFFER := 4096

  /** clientHandshakeV2WithCipher: hello, challenge, proof, status. The proof-size check never
      fires, and everything sent is the hello and the proof for the nonce that was read. */
  method ClientHandshakeV2(conn: Conn, auth: ClientAuth, destination: text, clientNonce: nonce, seal: nat)
    returns (result: ClientResult)
    modifies conn
    ensures result != Failed(ProofTooLarge)
    ensures result.Connected? ==>
      && auth.UsesV2() && auth.Valid() && ValidDestination(destination) && |old(conn.incoming)| >= NONCE
      && var serverNonce := Field(old(conn.incoming), 0, NONCE);
         && conn.outgoing == old(conn.outgoing) + (HelloV2(Trim(auth.clientID), clientNonce)
              + ProofV2(auth.clientSecret, clientNonce, serverNonce, destination, seal))
         && ServerSaidYes(result.secure, conn, SessionV2Key(auth.clientSecret, clientNonce, serverNonce),
              old(conn.incoming)[NONCE..])
    ensures old(conn.outgoing) <= conn.outgoing
  {
    if !auth.Valid() || !auth.UsesV2() {
      return Failed(BadCredentials);
    }
    if !ValidDestination(destination) {
      return Failed(BadDestination);
    }
    ghost var s, out := conn.incoming, conn.outgoing;
    var hello := HelloV2(Trim(auth.clientID), clientNonce);
    var ok := conn.WriteFull(hello);
    if !ok {
      return Failed(SendError);
    }
    var challenge;
    challenge, ok := conn.ReadFull(NONCE);
    if !ok {
      return Failed(ReadError);
    }
    assert s == challenge + conn.incoming;
    var serverNonce: nonce := Values(challenge);
    assert challenge == s[0..NONCE] && conn.incoming == s[NONCE..];
    var encrypted := Seal(AuthV2Key(auth.clientSecret, clientNonce, serverNonce), seal, ProofPlain(destination));
    if |encrypted| > MAX_HELLO_CIPHER {
      ValidDestinationNotEmpty(destination);
      return Failed(ProofTooLarge);
    }
    ok := SendProof(conn, encrypted);
    if !ok {
      return Failed(SendError);
    }
    Assoc(out, hello, Raws(PutUint16(|encrypted|)) + encrypted);
    result := AwaitStatus(conn, SessionV2Key(auth.clientSecret, clientNonce, serverNonce));
  }

  method SendProof(conn: Conn, encrypted: seq<Octet>) returns (ok: bool)
    modifies conn`outgoing, conn`answers
    ensures ok ==> conn.outgoing == old(conn.outgoing) + (Raws(PutUint16(|encrypted|)) + encrypted)
    ensures old(conn.outgoing) <= conn.outgoing
  {
    Assoc(conn.outgoing, Raws(PutUint16(|encrypted|)), encrypted);
    ok := conn.WriteFull(Raws(PutUint16(|encrypted|)));
    if ok {
      ok := conn.WriteFull(encrypted);
    }
  }

  /** clientHandshakeLegacyWithCipher. */
  method ClientHandshakeLegacy(conn: Conn, psk: text, destination: text, timestamp: int, clientNonce: nonce, seal: nat)
    returns (result: ClientResult)
    modifies conn
    ensures result != Failed(ProofTooLarge)
    ensures result.Connected? ==>
      && Trim(psk) != [] && ValidDestination(destination)
      && conn.outgoing == old(conn.outgoing) + HelloLegacy(psk, clientNonce, timestamp, destination, seal)
      && ServerSaidYes(result.secure, conn, LegacyKey(psk, clientNonce), old(conn.incoming))
    ensures old(conn.outgoing) <= conn.outgoing
  {
    if Trim(psk) == [] {
      return Failed(BadCredentials);
    }
    if !ValidDestination(destination) {
      return Failed(BadDestination);
    }
    var encrypted := Seal(LegacyKey(psk, clientNonce), seal, LegacyPlain(timestamp, destination));
    if |encrypted| > MAX_HELLO_CIPHER {
      ValidDestinationNotEmpty(destination);
      return Failed(ProofTooLarge);
    }
    var ok := conn.WriteFull(HelloLegacy(psk, clientNonce, timestamp, destination, seal));
    if !ok {
      return Failed(SendError);
    }
    result := AwaitStatus(conn, LegacyKey(psk, clientNonce));
  }

  /** The server's stream starts with a status beginning with 0; the connection goes on with the
      rest of that stream. */
  ghost predicate ServerSaidYes(secure: SecureConn, conn: Conn, key: Key, incoming: seq<Octet>)
    reads secure, conn
  {
    && secure.conn == conn && secure.key == key
    && exists status :: status + secure.Deliverable() == Stream(key, incoming)
         && 0 < |status| <= STATUS_BUFFER && status[0] == 0
  }

  method AwaitStatus(conn: Conn, key: Key) returns (result: ClientResult)
    modifies conn`incoming, conn`arrivals
    ensures result.Connected? ==> fresh(result.secure)
    ensures result.Connected? ==> ServerSaidYes(result.secure, conn, key, old(conn.incoming))
    ensures result.Failed? ==> result.error in {ReadError, EmptyStatus, Denied}
  {
    var secure := new SecureConn(conn, key, 0);
    assert secure.Deliverable() == Stream(key, conn.incoming);
    var status, error := secure.Read(STATUS_BUFFER);
    if error != NoError {
      return Failed(ReadError);
    }
    if |status| == 0 {
      return Failed(EmptyStatus);
    }
    if status[0] != 0 {
      return Failed(Denied);
    }
    result := Connected(secure);
  }
}
