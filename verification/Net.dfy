// The transport below the tunnel: net.Conn, io.ReadFull, writeFull and bufio.Reader.
module Net {
  import opened Bytes
  import opened Crypto

  /** What the transport answers to one Write call: the count it reports, and an error or not. */
  datatype WriteAnswer = WriteAnswer(n: int, failed: bool)

  /** One end of a byte-stream connection. `incoming` is what will still arrive before the
      peer closes; `arrivals` and `answers` fix how the transport chops reads and writes. */
  class Conn {
    var incoming: seq<Octet>
    var outgoing: seq<Octet>
    var arrivals: seq<nat>
    var answers: seq<WriteAnswer>

    constructor (incoming: seq<Octet>, arrivals: seq<nat>, answers: seq<WriteAnswer>)
      ensures this.incoming == incoming && this.outgoing == []
      ensures this.arrivals == arrivals && this.answers == answers
    {
      this.incoming := incoming;
      this.outgoing := [];
      this.arrivals := arrivals;
      this.answers := answers;
    }

    /** Read returns at least one octet unless the stream has ended. */
    method Read(max: nat) returns (data: seq<Octet>, eof: bool)
      requires max > 0
      modifies this`incoming, this`arrivals
      ensures old(incoming) == data + incoming
      ensures |data| <= max
      ensures eof <==> old(incoming) == []
      ensures !eof ==> |data| > 0
    {
      var n := if arrivals == [] then max else Max(1, arrivals[0]);
      n := Min(n, Min(max, |incoming|));
      if arrivals != [] {
        arrivals := arrivals[1..];
      }
      eof := |incoming| == 0;
      data := incoming[..n];
      incoming := incoming[n..];
    }

    /** Write takes a prefix of p; an exhausted transport fails. */
    method Write(p: seq<Octet>) returns (n: int, failed: bool)
      modifies this`outgoing, this`answers
      ensures old(outgoing) <= outgoing <= old(outgoing) + p
      ensures !failed && 0 < n <= |p| ==> outgoing == old(outgoing) + p[..n]
    {
      var answer := if answers == [] then WriteAnswer(0, true) else answers[0];
      if answers != [] {
        answers := answers[1..];
      }
      n, failed := answer.n, answer.failed;
      var k := Max(0, Min(n, |p|));
      outgoing := outgoing + p[..k];
    }

    /** io.ReadFull(conn, n). */
    method ReadFull(n: nat) returns (data: seq<Octet>, ok: bool)
      modifies this`incoming, this`arrivals
      ensures old(incoming) == data + incoming
      ensures ok <==> |old(incoming)| >= n
      ensures ok ==> |data| == n
      ensures !ok ==> incoming == []
    {
      data, ok := [], true;
      while ok && |data| < n
        invariant old(incoming) == data + incoming
        invariant |data| <= n
        invariant !ok ==> incoming == [] && |data| < n
        decreases ok, n - |data|
      {
        var part, eof := Read(n - |data|);
        data := data + part;
        ok := !eof;
      }
    }

    /** writeFull: keeps writing until p is gone, an error, or a nonsensical count. */
    method WriteFull(p: seq<Octet>) returns (ok: bool)
      modifies this`outgoing, this`answers
      ensures ok ==> outgoing == old(outgoing) + p
      ensures old(outgoing) <= outgoing <= old(outgoing) + p
    {
      var rest := p;
      ghost var sent := 0;
      ok := true;
      assert p[..0] == [];
      while |rest| > 0
        invariant 0 <= sent <= |p| && rest == p[sent..]
        invariant outgoing == old(outgoing) + p[..sent]
      {
        var n, failed := Write(rest);
        assert p[..sent] + rest == p;
        if failed || n <= 0 || n > |rest| {
          return false;
        }
        assert p[..sent] + rest[..n] == p[..sent + n];
        rest := rest[n..];
        sent := sent + n;
      }
      assert p[..sent] == p;
    }
  }

  const BUFFER_SIZE := 4096

  /** bufio.Reader with its default buffer. */
  class BufReader {
    const conn: Conn
    var buf: seq<Octet>

    constructor (conn: Conn)
      ensures this.conn == conn && buf == []
    {
      this.conn := conn;
      this.buf := [];
    }

    /** What the reader's user has not consumed yet. */
    ghost function Unread(): seq<Octet>
      reads this, conn
    {
      buf + conn.incoming
    }

    method Fill() returns (eof: bool)
      requires |buf| < BUFFER_SIZE
      modifies this, conn`incoming, conn`arrivals
      ensures Unread() == old(Unread())
      ensures eof <==> old(conn.incoming) == []
      ensures |buf| <= BUFFER_SIZE
      ensures eof ==> buf == old(buf) && conn.incoming == []
      ensures !eof ==> |buf| > |old(buf)|
    {
      var part;
      part, eof := conn.Read(BUFFER_SIZE - |buf|);
      buf := buf + part;
    }

    /** Peek(n) for n within the buffer; nothing is consumed. */
    method Peek(n: nat) returns (data: seq<Octet>, ok: bool)
      requires n <= BUFFER_SIZE && |buf| <= BUFFER_SIZE
      modifies this, conn`incoming, conn`arrivals
      ensures Unread() == old(Unread()) && |buf| <= BUFFER_SIZE
      ensures ok <==> |old(Unread())| >= n
      ensures ok ==> data == old(Unread())[..n]
    {
      ok := true;
      while ok && |buf| < n
        invariant Unread() == old(Unread()) && |buf| <= BUFFER_SIZE
        invariant !ok ==> |buf| < n && conn.incoming == []
        decreases ok, n - |buf|
      {
        var eof := Fill();
        ok := !eof;
      }
      data := if ok then buf[..n] else [];
    }

    /** io.ReadFull(reader, n): drains the buffer first, refills it only when it is empty. */
    method ReadFull(n: nat) returns (data: seq<Octet>, ok: bool)
      requires n <= BUFFER_SIZE && |buf| <= BUFFER_SIZE
      modifies this, conn`incoming, conn`arrivals
      ensures old(Unread()) == data + Unread() && |buf| <= BUFFER_SIZE
      ensures ok <==> |old(Unread())| >= n
      ensures ok ==> |data| == n
    {
      data, ok := [], true;
      while ok && |data| < n
        invariant old(Unread()) == data + Unread() && |buf| <= BUFFER_SIZE
        invariant |data| <= n
        invariant !ok ==> |data| < n && Unread() == []
        decreases ok, n - |data|, BUFFER_SIZE - |buf|
      {
        if |buf| == 0 {
          var eof := Fill();
          ok := !eof;
        }
        var k := Min(n - |data|, |buf|);
        assert buf == buf[..k] + buf[k..];
        Assoc(data, buf[..k], buf[k..] + conn.incoming);
        Assoc(buf[..k], buf[k..], conn.incoming);
        data := data + buf[..k];
        buf := buf[k..];
      }
    }
  }
}
