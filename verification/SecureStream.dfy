// pkg/tunnel/secure_conn.go: a byte stream cut into independently sealed frames.
module SecureStream {
  import opened Bytes
  import opened Crypto
  import opened Net

  const MAX_PLAIN_FRAME := 64 * 1024
  const MAX_CIPHER_FRAME := 128 * 1024

  datatype Error = NoError | Transport | FrameTooLarge | BadLength | BadSeal

  // ----- The stream a wire stands for ------------------------------------------------

  function Frame(key: Key, nonce: nat, chunk: seq<byte>): seq<Octet> {
    Raws(PutUint32(|chunk| + OVERHEAD)) + Seal(key, nonce, chunk)
  }

  /** The wire for one Write of p when the seals draw consecutive nonces. */
  function Framed(key: Key, nonce: nat, p: seq<byte>): seq<Octet>
    decreases |p|
  {
    if p == [] then []
    else
      var size := Min(|p|, MAX_PLAIN_FRAME);
      Frame(key, nonce, p[..size]) + Framed(key, nonce + 1, p[size..])
  }

  /** One Write call: the nonce its first frame drew and the bytes it was given. */
  datatype Written = Written(nonce: nat, data: seq<byte>)

  /** The wire for a sequence of Write calls. */
  function FramedAll(key: Key, writes: seq<Written>): seq<Octet> {
    if writes == [] then []
    else Framed(key, writes[0].nonce, writes[0].data) + FramedAll(key, writes[1..])
  }

  function DataOf(writes: seq<Written>): seq<byte> {
    if writes == [] then [] else writes[0].data + DataOf(writes[1..])
  }

  function HeaderLength(wire: seq<Octet>): nat
    requires |wire| >= 4
  {
    Uint32(Values(wire[..4]))
  }

  predicate WholeFrame(wire: seq<Octet>) {
    |wire| >= 4 && 0 < HeaderLength(wire) <= MAX_CIPHER_FRAME && |wire| >= 4 + HeaderLength(wire)
  }

  /** Every plaintext byte a receiver can get out of a wire, frame by frame. */
  function Stream(key: Key, wire: seq<Octet>): seq<byte>
    decreases |wire|
  {
    if !WholeFrame(wire) then []
    else
      var end := 4 + HeaderLength(wire);
      match Open(key, wire[4..end])
      case None => []
      case Some(plain) => plain + Stream(key, wire[end..])
  }

  lemma StreamStep(key: Key, wire: seq<Octet>, length: nat)
    requires |wire| >= 4 && HeaderLength(wire) == length
    ensures (length == 0 || length > MAX_CIPHER_FRAME || |wire| < 4 + length) ==> Stream(key, wire) == []
    ensures 0 < length <= MAX_CIPHER_FRAME && |wire| >= 4 + length ==>
      Stream(key, wire) == match Open(key, wire[4..4 + length])
        case None => []
        case Some(plain) => plain + Stream(key, wire[4 + length..])
  {
  }

  /** A write of n octets is one frame for every started 64 KiB, each with 32 octets around its part. */
  lemma {:induction false} FramedSize(key: Key, nonce: nat, p: seq<byte>)
    ensures |Framed(key, nonce, p)| == |p| + 32 * ((|p| + 65_535) / 65_536)
    decreases |p|
  {
    if |p| > 65_536 {
      FramedSize(key, nonce + 1, p[65_536..]);
    } else if p != [] {
      assert p[|p|..] == [] && Framed(key, nonce + 1, []) == [];
    }
  }

  lemma NextMultiple(written: nat)
    ensures written % MAX_PLAIN_FRAME == 0 ==> (written + MAX_PLAIN_FRAME) % MAX_PLAIN_FRAME == 0
  {
  }

  /** Nothing is read from a frame that claims no octets or more than 128 KiB, nor from anything after it. */
  lemma ImpossibleLengthEndsStream(key: Key, wire: seq<Octet>)
    requires |wire| >= 4 && (HeaderLength(wire) == 0 || HeaderLength(wire) > 131_072)
    ensures Stream(key, wire) == []
  {
  }

  lemma FrameHeader(key: Key, nonce: nat, chunk: seq<byte>, rest: seq<Octet>)
    requires |chunk| + OVERHEAD <= MAX_CIPHER_FRAME
    ensures var wire := Frame(key, nonce, chunk) + rest;
      && WholeFrame(wire)
      && HeaderLength(wire) == |chunk| + OVERHEAD
      && wire[4..4 + HeaderLength(wire)] == Seal(key, nonce, chunk)
      && wire[4 + HeaderLength(wire)..] == rest
  {
    var header := PutUint32(|chunk| + OVERHEAD);
    var wire := Frame(key, nonce, chunk) + rest;
    assert wire[..4] == Raws(header);
    ValuesOfRaws(header);
    Uint32OfPut(|chunk| + OVERHEAD);
  }

  lemma StreamOfFrame(key: Key, nonce: nat, chunk: seq<byte>, rest: seq<Octet>)
    requires |chunk| + OVERHEAD <= MAX_CIPHER_FRAME
    ensures Stream(key, Frame(key, nonce, chunk) + rest) == chunk + Stream(key, rest)
  {
    FrameHeader(key, nonce, chunk, rest);
    OpenOfSeal(key, nonce, chunk);
  }

  lemma FramedStep(key: Key, nonce: nat, p: seq<byte>)
    requires p != []
    ensures var size := Min(|p|, MAX_PLAIN_FRAME);
      Framed(key, nonce, p) == Frame(key, nonce, p[..size]) + Framed(key, nonce + 1, p[size..])
  {
  }

  lemma {:induction false} StreamOfFramed(key: Key, nonce: nat, p: seq<byte>, rest: seq<Octet>)
    ensures Stream(key, Framed(key, nonce, p) + rest) == p + Stream(key, rest)
    decreases |p|
  {
    if p == [] {
      assert Framed(key, nonce, p) + rest == rest;
    } else {
      var size := Min(|p|, MAX_PLAIN_FRAME);
      var chunk, others := p[..size], p[size..];
      var tail := Framed(key, nonce + 1, others);
      StreamOfFramed(key, nonce + 1, others, rest);
      StreamOfFrame(key, nonce, chunk, tail + rest);
      FramedStep(key, nonce, p);
      Assoc(Frame(key, nonce, chunk), tail, rest);
      Assoc(chunk, others, Stream(key, rest));
      assert chunk + others == p;
    }
  }

  lemma {:induction false} StreamOfFramedAll(key: Key, writes: seq<Written>)
    ensures Stream(key, FramedAll(key, writes)) == DataOf(writes)
  {
    if writes != [] {
      StreamOfFramedAll(key, writes[1..]);
      StreamOfFramed(key, writes[0].nonce, writes[0].data, FramedAll(key, writes[1..]));
    }
  }

  /** Octets still missing from the end of the wire only delay the end of the stream. */
  lemma {:induction false} StreamOfPrefix(key: Key, wire: seq<Octet>, more: seq<Octet>)
    ensures Stream(key, wire) <= Stream(key, wire + more)
    decreases |wire|
  {
    if WholeFrame(wire) {
      var end := 4 + HeaderLength(wire);
      assert (wire + more)[..4] == wire[..4];
      assert (wire + more)[4..end] == wire[4..end];
      assert (wire + more)[end..] == wire[end..] + more;
      StreamOfPrefix(key, wire[end..], more);
      StreamStep(key, wire, end - 4);
      StreamStep(key, wire + more, end - 4);
    }
  }

  /** Whatever part of the writers' wire has arrived, it decodes to a prefix of what was
      written, and to all of it once everything has arrived. */
  lemma SecureStreamRefinesByteStream(key: Key, writes: seq<Written>, arrived: nat)
    requires arrived <= |FramedAll(key, writes)|
    ensures Stream(key, FramedAll(key, writes)[..arrived]) <= DataOf(writes)
    ensures arrived == |FramedAll(key, writes)| ==>
      Stream(key, FramedAll(key, writes)[..arrived]) == DataOf(writes)
  {
    var wire := FramedAll(key, writes);
    assert wire[..arrived] + wire[arrived..] == wire;
    StreamOfPrefix(key, wire[..arrived], wire[arrived..]);
    StreamOfFramedAll(key, writes);
    if arrived == |wire| {
      assert wire[..arrived] == wire;
    }
  }

  // ----- The connection --------------------------------------------------------------

  class SecureConn {
    const conn: Conn
    const key: Key
    var pending: seq<byte>
    var nonce: nat

    constructor (conn: Conn, key: Key, nonce: nat)
      ensures this.conn == conn && this.key == key && pending == [] && this.nonce == nonce
    {
      this.conn := conn;
      this.key := key;
      this.pending := [];
      this.nonce := nonce;
    }

    /** The plaintext this end can still deliver from what it holds and what will arrive. */
    ghost function Deliverable(): seq<byte>
      reads this, conn
    {
      pending + Stream(key, conn.incoming)
    }

    /** Read with a buffer of n bytes. */
    method Read(n: nat) returns (data: seq<byte>, error: Error)
      modifies this`pending, conn`incoming, conn`arrivals
      ensures n == 0 ==> data == [] && error == NoError && unchanged(this) && unchanged(conn)
      ensures |data| <= n
      ensures error == NoError ==> data + Deliverable() == old(Deliverable())
      ensures error != NoError ==> data == [] && old(Deliverable()) == []
      ensures n > 0 && error == NoError && old(pending) != [] ==> data != []
      ensures n > 0 && error == NoError ==>
        |conn.incoming| + |pending| < |old(conn.incoming)| + |old(pending)|
      ensures error in {NoError, Transport, BadLength, BadSeal}
      ensures error == Transport ==> conn.incoming == []
    {
      data, error := [], NoError;
      if n == 0 {
        return;
      }
      if |pending| == 0 {
        var plain;
        plain, error := ReadFrame();
        if error != NoError {
          return;
        }
        pending := plain;
      }
      var k := Min(n, |pending|);
      ghost var all := pending;
      data := pending[..k];
      pending := pending[k..];
      assert all == data + pending;
      Assoc(data, pending, Stream(key, conn.incoming));
    }

    /** Read and open the next frame. */
    method ReadFrame() returns (plain: seq<byte>, error: Error)
      modifies conn`incoming, conn`arrivals
      ensures error == NoError ==> plain + Stream(key, conn.incoming) == Stream(key, old(conn.incoming))
      ensures error == NoError ==> |conn.incoming| + |plain| < |old(conn.incoming)|
      ensures error != NoError ==> Stream(key, old(conn.incoming)) == []
      ensures error in {NoError, Transport, BadLength, BadSeal}
      ensures error == Transport ==> conn.incoming == []
    {
      plain, error := [], NoError;
      ghost var wire := conn.incoming;
      var header, got := conn.ReadFull(4);
      if !got {
        error := Transport;
        return;
      }
      var length := Uint32(Values(header));
      assert wire[..4] == header;
      StreamStep(key, wire, length);
      if length <= 0 || length > MAX_CIPHER_FRAME {
        error := BadLength;
        return;
      }
      var encrypted;
      encrypted, got := conn.ReadFull(length);
      if !got {
        error := Transport;
        return;
      }
      Slices(header, encrypted, conn.incoming);
      var unsealed := Open(key, encrypted);
      if unsealed == None {
        error := BadSeal;
        return;
      }
      plain := unsealed.value;
      OnlySealsOpen(key, encrypted);
    }

    /** Write: one frame per 64 KiB piece. The frame-size check never fires. */
    method Write(p: seq<byte>) returns (written: nat, error: Error)
      modifies this`nonce, conn`outgoing, conn`answers
      ensures error in {NoError, Transport}
      ensures written <= |p|
      ensures error == NoError ==> written == |p|
      ensures error == NoError ==> conn.outgoing == old(conn.outgoing) + Framed(key, old(nonce), p)
      ensures error != NoError ==> written < |p| && written % MAX_PLAIN_FRAME == 0
      ensures old(conn.outgoing) <= conn.outgoing <= old(conn.outgoing) + Framed(key, old(nonce), p)
    {
      var rest := p;
      written, error := 0, NoError;
      ghost var start, all := conn.outgoing, Framed(key, nonce, p);
      while |rest| > 0
        invariant error == NoError && written <= |p| && rest == p[written..]
        invariant rest != [] ==> written % MAX_PLAIN_FRAME == 0
        invariant conn.outgoing + Framed(key, nonce, rest) == start + all
        invariant start <= conn.outgoing
      {
        var size := Min(|rest|, MAX_PLAIN_FRAME);
        ghost var before, tail := conn.outgoing, Framed(key, nonce + 1, rest[size..]);
        ghost var frame := Frame(key, nonce, rest[..size]);
        FramedStep(key, nonce, rest);
        Assoc(before, frame, tail);
        error := WriteFrame(rest[..size]);
        if error != NoError {
          return;
        }
        NextMultiple(written);
        written := written + size;
        rest := rest[size..];
      }
      assert Framed(key, nonce, rest) == [];
    }

    /** Seal one piece and send its header and body. */
    method WriteFrame(chunk: seq<byte>) returns (error: Error)
      requires |chunk| <= MAX_PLAIN_FRAME
      modifies this`nonce, conn`outgoing, conn`answers
      ensures nonce == old(nonce) + 1
      ensures error in {NoError, Transport}
      ensures error == NoError ==> conn.outgoing == old(conn.outgoing) + Frame(key, old(nonce), chunk)
      ensures old(conn.outgoing) <= conn.outgoing <= old(conn.outgoing) + Frame(key, old(nonce), chunk)
    {
      var encrypted := Seal(key, nonce, chunk);
      nonce := nonce + 1;
      if |encrypted| > MAX_CIPHER_FRAME {
        return FrameTooLarge;
      }
      var header := Raws(PutUint32(|encrypted|));
      ghost var before := conn.outgoing;
      Assoc(before, header, encrypted);
      var ok := conn.WriteFull(header);
      if ok {
        ok := conn.WriteFull(encrypted);
      }
      error := if ok then NoError else Transport;
    }

    /** io.Copy(dst, secure): read until the end of the stream with buffers of any sizes. */
    method CopyAll(buffers: seq<nat>) returns (data: seq<byte>)
      requires forall b :: b in buffers ==> b > 0
      modifies this`pending, conn`incoming, conn`arrivals
      ensures data == old(Deliverable())
    {
      data := [];
      var i, error := 0, NoError;
      while error == NoError
        invariant 0 <= i
        invariant error == NoError ==> data + Deliverable() == old(Deliverable())
        invariant error != NoError ==> data == old(Deliverable())
        decreases if error == NoError then 1 + |conn.incoming| + |pending| else 0
      {
        var size := if i < |buffers| then buffers[i] else 32 * 1024;
        assert i < |buffers| ==> buffers[i] in buffers;
        ghost var before := data;
        var part;
        part, error := Read(size);
        data := data + part;
        Assoc(before, part, Deliverable());
        i := i + 1;
      }
    }
  }
}
