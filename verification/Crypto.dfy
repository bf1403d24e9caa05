// pkg/crypto/crypto.go and the HKDF derivations of pkg/tunnel, in the symbolic model:
// an octet on the wire is either a plain byte or one octet of a sealed frame, which
// remembers the key, nonce and plaintext it was sealed from. Nobody can build a sealed
// octet without the key, so Open succeeds on exactly the frames Seal made.
module Crypto {
  import opened Bytes

  /** HKDF-SHA256 outputs; distinct inputs give distinct keys. */
  datatype Key =
    | LegacyKey(psk: seq<byte>, salt: seq<byte>)
    | AuthV2Key(secret: seq<byte>, clientNonce: seq<byte>, serverNonce: seq<byte>)
    | SessionV2Key(secret: seq<byte>, clientNonce: seq<byte>, serverNonce: seq<byte>)

  datatype Octet =
    | Raw(b: byte)
    | Sealed(key: Key, nonce: nat, plain: seq<byte>, index: nat)

  // AES-GCM: a 12-byte nonce in front and a 16-byte tag behind.
  const NONCE_SIZE := 12
  const OVERHEAD := 28

  function Seal(key: Key, nonce: nat, plain: seq<byte>): (frame: seq<Octet>)
    ensures |frame| == |plain| + OVERHEAD
  {
    seq(|plain| + OVERHEAD, i requires 0 <= i => Sealed(key, nonce, plain, i))
  }

  function Open(key: Key, frame: seq<Octet>): (plain: Option<seq<byte>>) {
    if |frame| >= NONCE_SIZE && frame[0].Sealed? && frame[0].key == key
       && frame == Seal(key, frame[0].nonce, frame[0].plain)
    then Some(frame[0].plain)
    else None
  }

  lemma OpenOfSeal(key: Key, nonce: nat, plain: seq<byte>)
    ensures Open(key, Seal(key, nonce, plain)) == Some(plain)
  {
    assert Seal(key, nonce, plain)[0] == Sealed(key, nonce, plain, 0);
  }

  /** Only the holder of the key makes a frame that opens under it. */
  lemma OnlySealsOpen(key: Key, frame: seq<Octet>)
    requires Open(key, frame).Some?
    ensures exists nonce :: frame == Seal(key, nonce, Open(key, frame).value)
  {
    assert frame == Seal(key, frame[0].nonce, Open(key, frame).value);
  }

  lemma OtherKeyFails(key: Key, other: Key, nonce: nat, plain: seq<byte>)
    requires key != other
    ensures Open(other, Seal(key, nonce, plain)) == None
  {
    assert Seal(key, nonce, plain)[0].key == key;
  }

  function Raws(s: seq<byte>): (r: seq<Octet>)
    ensures |r| == |s|
    ensures forall i :: 0 <= i < |s| ==> r[i] == Raw(s[i])
  {
    seq(|s|, i requires 0 <= i < |s| => Raw(s[i]))
  }

  /** The byte a reader of lengths and names sees; what a ciphertext octet shows is arbitrary. */
  function Value(o: Octet): byte {
    match o
    case Raw(b) => b
    case Sealed(_, nonce, _, index) => (nonce + index) % 256
  }

  function Values(s: seq<Octet>): (r: seq<byte>)
    ensures |r| == |s|
    ensures forall i :: 0 <= i < |s| ==> r[i] == Value(s[i])
  {
    seq(|s|, i requires 0 <= i < |s| => Value(s[i]))
  }

  lemma ValuesOfRaws(s: seq<byte>)
    ensures Values(Raws(s)) == s
  {
    assert forall i :: 0 <= i < |s| ==> Values(Raws(s))[i] == s[i];
  }
}
