// The datagram frame codec of pkg/tunnel/quic_datagram.go.
module Datagram {
  import opened Bytes
  import opened Text
  import opened Handshake

  const FRAME_VERSION: byte := 1
  const MAX_PLAIN := 1080

  datatype Encoded = Frame(bytes: seq<byte>) | InvalidDestination | TooLarge

  function Encode(destination: text, payload: seq<byte>): Encoded {
    if !ValidDestination(destination) then InvalidDestination
    else if 3 + |destination| + |payload| > MAX_PLAIN then TooLarge
    else Frame([FRAME_VERSION] + PutUint16(|destination|) + destination + payload)
  }

  datatype Datagram = Datagram(destination: text, payload: seq<byte>)

  function Decode(frame: seq<byte>): Option<Datagram> {
    if |frame| < 3 || frame[0] != FRAME_VERSION then None
    else
      var n := Uint16(frame[1..3]);
      if n <= 0 || n > MAX_DESTINATION || |frame| < 3 + n then None
      else if !ValidDestination(frame[3..3 + n]) then None
      else Some(Datagram(frame[3..3 + n], frame[3 + n..]))
  }

  /** Encoding succeeds exactly for valid destinations whose frame fits, and decoding undoes it. */
  lemma DecodeOfEncode(destination: text, payload: seq<byte>)
    ensures Encode(destination, payload).Frame?
      <==> ValidDestination(destination) && 3 + |destination| + |payload| <= 1080
    ensures Encode(destination, payload).Frame? ==>
      Decode(Encode(destination, payload).bytes) == Some(Datagram(destination, payload))
  {
    if Encode(destination, payload).Frame? {
      ValidDestinationNotEmpty(destination);
      Uint16OfPut(|destination|);
      var frame := Encode(destination, payload).bytes;
      assert frame[1..3] == PutUint16(|destination|);
      assert frame[3..3 + |destination|] == destination && frame[3 + |destination|..] == payload;
    }
  }

  /** Encoding undoes decoding exactly on frames within the limit: larger ones decode, but the
      encoder refuses to make them. */
  lemma EncodeOfDecode(frame: seq<byte>)
    requires Decode(frame).Some?
    ensures var d := Decode(frame).value;
      Encode(d.destination, d.payload) == (if |frame| <= 1080 then Frame(frame) else TooLarge)
  {
    var d := Decode(frame).value;
    PutOfUint16(frame[1..3]);
    assert |d.destination| == Uint16(frame[1..3]) && 3 + |d.destination| + |d.payload| == |frame|;
    Rejoin(frame, |d.destination|);
  }

  lemma Rejoin(frame: seq<byte>, n: nat)
    requires 3 + n <= |frame|
    ensures frame == [frame[0]] + frame[1..3] + frame[3..3 + n] + frame[3 + n..]
  {
  }
}
