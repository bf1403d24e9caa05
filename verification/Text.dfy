// The string helpers the repository leans on, over bytes: strings.TrimSpace, strings.ToLower,
// strconv.Atoi and Itoa, net.SplitHostPort and net.JoinHostPort.
module Text {
  import opened Bytes

  type text = seq<byte>

  // ----- Searching and trimming ---------------------------------------------------------

  function IndexOf(s: text, c: byte): (i: int)
    ensures -1 <= i < |s|
    ensures i >= 0 ==> s[i] == c && c !in s[..i]
    ensures i < 0 <==> c !in s
  {
    if s == [] then -1
    else if s[0] == c then 0
    else
      var i := IndexOf(s[1..], c);
      assert s == [s[0]] + s[1..];
      if i < 0 then -1
      else
        assert s[..i + 1] == [s[0]] + s[1..][..i];
        i + 1
  }

  function LastIndexOf(s: text, c: byte): (i: int)
    ensures -1 <= i < |s|
    ensures i >= 0 ==> s[i] == c && c !in s[i + 1..]
    ensures i < 0 <==> c !in s
  {
    if s == [] then -1
    else if s[|s| - 1] == c then |s| - 1
    else
      var i := LastIndexOf(s[..|s| - 1], c);
      assert s == s[..|s| - 1] + [s[|s| - 1]];
      assert i >= 0 ==> s[i + 1..] == s[..|s| - 1][i + 1..] + [s[|s| - 1]];
      i
  }

  const WHITE: set<byte> := {9, 10, 11, 12, 13, 32}

  function TrimLeft(s: text, cut: set<byte>): (r: text)
    ensures r == [] || r[0] !in cut
    ensures |r| <= |s|
  {
    if s != [] && s[0] in cut then TrimLeft(s[1..], cut) else s
  }

  function TrimRight(s: text, cut: set<byte>): (r: text)
    ensures r == [] || r[|r| - 1] !in cut
    ensures r <= s
  {
    if s != [] && s[|s| - 1] in cut then TrimRight(s[..|s| - 1], cut) else s
  }

  /** strings.TrimSpace on ASCII white space. */
  function Trim(s: text): (r: text)
    ensures |r| <= |s|
    ensures r == [] || (r[0] !in WHITE && r[|r| - 1] !in WHITE)
  {
    TrimRight(TrimLeft(s, WHITE), WHITE)
  }

  lemma TrimTwice(s: text)
    ensures Trim(Trim(s)) == Trim(s)
  {
  }

  lemma TrimKeeps(s: text)
    requires s != [] && s[0] !in WHITE && s[|s| - 1] !in WHITE
    ensures Trim(s) == s
  {
  }

  /** A tab, a line feed, a vertical tab, a form feed, a return or a space. */
  predicate IsSpace(c: byte) {
    9 <= c <= 13 || c == 32
  }

  predicate AllSpace(s: text) {
    forall c :: c in s ==> IsSpace(c)
  }

  predicate InkAtEnds(s: text) {
    s == [] || (!IsSpace(s[0]) && !IsSpace(s[|s| - 1]))
  }

  lemma {:induction false} LeadGoes(lead: text, s: text)
    requires AllSpace(lead) && InkAtEnds(s)
    ensures TrimLeft(lead + s, WHITE) == s
  {
    if lead == [] {
      assert lead + s == s;
    } else {
      assert lead[0] in lead && (lead + s)[1..] == lead[1..] + s;
      LeadGoes(lead[1..], s);
    }
  }

  lemma DropsLast(t: text)
    requires t != [] && IsSpace(t[|t| - 1])
    ensures TrimRight(t, WHITE) == TrimRight(t[..|t| - 1], WHITE)
  {
  }

  lemma {:induction false} TailGoes(s: text, tail: text)
    requires AllSpace(tail) && InkAtEnds(s)
    ensures TrimRight(s + tail, WHITE) == s
  {
    if tail == [] {
      assert s + tail == s;
    } else {
      var n, t := |tail| - 1, s + tail;
      assert tail[n] in tail && t[|t| - 1] == tail[n];
      assert t[..|t| - 1] == s + tail[..n];
      assert forall c :: c in tail[..n] ==> c in tail;
      TailGoes(s, tail[..n]);
      DropsLast(t);
    }
  }

  lemma {:induction false} LeadOnly(lead: text, s: text)
    requires AllSpace(lead) && s != [] && !IsSpace(s[0])
    ensures TrimLeft(lead + s, WHITE) == s
  {
    if lead == [] {
      assert lead + s == s;
    } else {
      assert lead[0] in lead && (lead + s)[1..] == lead[1..] + s;
      LeadOnly(lead[1..], s);
    }
  }

  /** Trimming takes away the white space around a text and nothing else. */
  lemma TrimIs(lead: text, core: text, tail: text)
    requires AllSpace(lead) && InkAtEnds(core) && AllSpace(tail)
    ensures Trim(lead + (core + tail)) == core
  {
    if core == [] {
      assert lead + (core + tail) == lead + tail + [];
      LeadGoes(lead + tail, []);
    } else {
      LeadOnly(lead, core + tail);
      TailGoes(core, tail);
    }
  }

  lemma {:induction false} BlankIff(s: text)
    ensures Trim(s) == [] <==> AllSpace(s)
  {
    if AllSpace(s) {
      assert s == s + ([] + []);
      TrimIs(s, [], []);
    } else {
      LeftKeeps(s);
      RightKeeps(TrimLeft(s, WHITE));
    }
  }

  lemma {:induction false} LeftKeeps(s: text)
    requires !AllSpace(s)
    ensures !AllSpace(TrimLeft(s, WHITE))
  {
    if s[0] in WHITE {
      assert s == [s[0]] + s[1..];
      LeftKeeps(s[1..]);
    }
  }

  lemma {:induction false} RightKeeps(s: text)
    requires !AllSpace(s)
    ensures TrimRight(s, WHITE) != []
  {
    var n := |s| - 1;
    if s[n] in WHITE {
      assert s == s[..n] + [s[n]];
      RightKeeps(s[..n]);
    }
  }

  function LowerByte(c: byte): byte {
    if 65 <= c <= 90 then c + 32 else c
  }

  function Lower(s: text): (r: text)
    ensures |r| == |s|
    ensures forall i :: 0 <= i < |s| ==> r[i] == LowerByte(s[i])
  {
    seq(|s|, i requires 0 <= i < |s| => LowerByte(s[i]))
  }

  // ----- Numbers ----------------------------------------------------------------------------

  predicate IsDigit(c: byte) {
    48 <= c <= 57
  }

  predicate Digits(s: text) {
    forall c :: c in s ==> IsDigit(c)
  }

  function Number(s: text): nat
    requires Digits(s)
  {
    if s == [] then 0
    else
      assert s[|s| - 1] in s;
      Number(s[..|s| - 1]) * 10 + (s[|s| - 1] - 48)
  }

  /** strconv.Atoi: an optional sign and at least one digit. */
  function Atoi(s: text): Option<int> {
    var unsigned := if s != [] && s[0] in {43, 45} then s[1..] else s;
    if unsigned == [] || !Digits(unsigned) then None
    else
      var n: int := Number(unsigned);
      Some(if s[0] == 45 then -n else n)
  }

  function Itoa(n: nat): (s: text)
    ensures s != [] && Digits(s) && Number(s) == n
  {
    if n < 10 then [48 + n]
    else
      var s := Itoa(n / 10) + [48 + n % 10];
      assert s[..|s| - 1] == Itoa(n / 10);
      s
  }

  lemma AtoiOfItoa(n: nat)
    ensures Atoi(Itoa(n)) == Some(n)
  {
    var s := Itoa(n);
    assert s[0] in s;
  }

  /** A sign in front counts. */
  lemma AtoiOfSigned(n: nat)
    ensures Atoi([43] + Itoa(n)) == Some(n)
    ensures Atoi([45] + Itoa(n)).Some? && Atoi([45] + Itoa(n)).value + n == 0
  {
    assert ([43] + Itoa(n))[1..] == Itoa(n) && ([45] + Itoa(n))[1..] == Itoa(n);
  }

  // ----- host:port --------------------------------------------------------------------------

  const COLON: byte := 58
  const OPEN: byte := 91
  const CLOSE: byte := 93

  datatype HostPort = HostPort(host: text, port: text)

  /** net.SplitHostPort. */
  function SplitHostPort(s: text): Option<HostPort> {
    var i := LastIndexOf(s, COLON);
    if i < 0 then None
    else if s[0] == OPEN then
      var end := IndexOf(s, CLOSE);
      if end < 0 || end + 1 != i then None
      else if OPEN in s[1..] || CLOSE in s[end + 1..] then None
      else Some(HostPort(s[1..end], s[i + 1..]))
    else if COLON in s[..i] || OPEN in s || CLOSE in s then None
    else Some(HostPort(s[..i], s[i + 1..]))
  }

  /** net.JoinHostPort. */
  function JoinHostPort(host: text, port: text): text {
    if COLON in host then [OPEN] + host + [CLOSE, COLON] + port
    else host + [COLON] + port
  }

  predicate NoBrackets(s: text) {
    OPEN !in s && CLOSE !in s
  }

  lemma IndexIs(s: text, c: byte, i: nat)
    requires i < |s| && s[i] == c && c !in s[..i]
    ensures IndexOf(s, c) == i
  {
    var j := IndexOf(s, c);
    assert j >= 0 && s[j] == c;
    assert forall k :: 0 <= k < i ==> s[k] == s[..i][k];
    assert forall k :: 0 <= k < j ==> s[k] == s[..j][k];
  }

  lemma LastIndexIs(s: text, c: byte, i: nat)
    requires i < |s| && s[i] == c && c !in s[i + 1..]
    ensures LastIndexOf(s, c) == i
  {
    var j := LastIndexOf(s, c);
    assert j >= 0 && s[j] == c;
    assert forall k :: i < k < |s| ==> s[k] == s[i + 1..][k - i - 1];
    assert forall k :: j < k < |s| ==> s[k] == s[j + 1..][k - j - 1];
  }

  lemma SplitBracketed(host: text, port: text)
    requires NoBrackets(host) && COLON !in port
    ensures var s := [OPEN] + host + [CLOSE, COLON] + port;
      LastIndexOf(s, COLON) == |host| + 2 && IndexOf(s, CLOSE) == |host| + 1
  {
    var i := |host| + 2;
    var s := [OPEN] + host + [CLOSE, COLON] + port;
    assert s[i + 1..] == port;
    LastIndexIs(s, COLON, i);
    assert s[..i - 1] == [OPEN] + host;
    IndexIs(s, CLOSE, i - 1);
  }

  lemma SplitPlain(host: text, port: text)
    requires NoBrackets(host) && NoBrackets(port) && COLON !in host && COLON !in port
    ensures SplitHostPort(host + [COLON] + port) == Some(HostPort(host, port))
  {
    var s := host + [COLON] + port;
    assert s[|host| + 1..] == port && s[..|host|] == host;
    LastIndexIs(s, COLON, |host|);
    assert OPEN !in s && CLOSE !in s;
  }

  lemma SplitInBrackets(host: text, port: text)
    requires NoBrackets(host) && NoBrackets(port) && COLON !in port
    ensures SplitHostPort([OPEN] + host + [CLOSE, COLON] + port) == Some(HostPort(host, port))
  {
    var s := [OPEN] + host + [CLOSE, COLON] + port;
    SplitBracketed(host, port);
    BracketParts(host, port);
  }

  lemma BracketParts(host: text, port: text)
    ensures var s := [OPEN] + host + [CLOSE, COLON] + port;
      && s[0] == OPEN && s[|host| + 3..] == port && s[1..|host| + 1] == host
      && s[1..] == host + [CLOSE, COLON] + port && s[|host| + 2..] == [COLON] + port
  {
  }

  /** Joining and then splitting gives the parts back. */
  lemma SplitOfJoin(host: text, port: text)
    requires NoBrackets(host) && NoBrackets(port) && COLON !in port
    ensures SplitHostPort(JoinHostPort(host, port)) == Some(HostPort(host, port))
  {
    if COLON in host {
      SplitInBrackets(host, port);
    } else {
      SplitPlain(host, port);
    }
  }

  /** Splitting and then joining gives the text back exactly when a bracketed host needed
      its brackets. */
  lemma JoinOfSplit(s: text)
    requires SplitHostPort(s).Some?
    ensures var hp := SplitHostPort(s).value;
      JoinHostPort(hp.host, hp.port) == s <==> (s[0] != OPEN || COLON in hp.host)
  {
    var i := LastIndexOf(s, COLON);
    var hp := SplitHostPort(s).value;
    if s[0] == OPEN {
      var end := IndexOf(s, CLOSE);
      assert s == [OPEN] + s[1..end] + [CLOSE, COLON] + s[i + 1..];
      if COLON !in hp.host {
        assert |JoinHostPort(hp.host, hp.port)| == |s| - 2;
      }
    } else {
      assert s == s[..i] + [COLON] + s[i + 1..];
    }
  }
}
