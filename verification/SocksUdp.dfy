// The UDP request codec of pkg/socks5/udp.go (section 7 of RFC 1928). How addresses are printed is a
// parameter: only that printing and parsing undo each other is used.
module SocksUdp {
  import opened Bytes
  import opened Text

  // ----- Addresses -----------------------------------------------------------------------------------

  type Address = seq<byte>

  const MAPPED: seq<byte> := [0, 0, 0, 0, 0, 0, 0, 0, 0, 0, 255, 255]

  /** IP.To4: an IPv4-mapped address is an IPv4 address. */
  function Unmapped(raw: Address): Address {
    if |raw| == 16 && raw[..12] == MAPPED then raw[12..] else raw
  }

  predicate IsAddress(a: Address) {
    |a| == 4 || (|a| == 16 && Unmapped(a) == a)
  }

  /** net.ParseIP followed by To4, and IP.String of an unmapped address. */
  datatype Names = Names(parse: text -> Option<Address>, show: Address -> text)

  ghost predicate Lawful(names: Names) {
    && (forall a: Address {:trigger names.show(a)} :: IsAddress(a) ==>
          names.parse(names.show(a)) == Some(a) && names.show(a) != [] && NoBrackets(names.show(a)))
    && (forall t: text {:trigger names.parse(t)} :: names.parse(t).Some? ==> IsAddress(names.parse(t).value))
    && names.parse([]) == None
  }

  function ParseAddress(names: Names, packet: seq<byte>): Option<(text, nat)> {
    if |packet| < 1 then None
    else if packet[0] == 1 then
      if |packet| < 5 then None else Some((names.show(packet[1..5]), 5))
    else if packet[0] == 3 then
      if |packet| < 2 || packet[1] == 0 || |packet| < 2 + packet[1] as int then None
      else Some((packet[2..2 + packet[1] as int], 2 + packet[1] as int))
    else if packet[0] == 4 then
      if |packet| < 17 then None else Some((names.show(Unmapped(packet[1..17])), 17))
    else None
  }

  function EncodeAddress(names: Names, host: text): Option<seq<byte>> {
    match names.parse(host)
    case Some(a) => Some([if |a| == 4 then 1 else 4] + a)
    case None => if |host| == 0 || |host| > 255 then None else Some([3, |host|] + host)
  }

  // ----- Datagrams ---------------------------------------------------------------------------------------

  datatype Datagram = Datagram(destination: text, payload: seq<byte>)

  function Parse(names: Names, packet: seq<byte>): Option<Datagram> {
    if |packet| < 4 || packet[0] != 0 || packet[1] != 0 || packet[2] != 0 then None
    else
      match ParseAddress(names, packet[3..])
      case None => None
      case Some((host, used)) =>
        if |packet| < 3 + used + 2 then None
        else
          var port := Uint16(packet[3 + used..3 + used + 2]);
          if port == 0 then None else Some(Datagram(JoinHostPort(host, Itoa(port)), packet[3 + used + 2..]))
  }

  function Build(names: Names, destination: text, payload: seq<byte>): Option<seq<byte>> {
    match SplitHostPort(destination)
    case None => None
    case Some(hp) =>
      var port := Atoi(hp.port);
      if port == None || port.value <= 0 || port.value > 65535 then None
      else
        match EncodeAddress(names, hp.host)
        case None => None
        case Some(address) => Some([0, 0, 0] + address + PutUint16(port.value) + payload)
  }

  /** The host as it comes back. */
  function Shown(names: Names, host: text): text {
    var a := names.parse(host);
    if a.Some? then names.show(a.value) else host
  }

  /** An address in its printed form, a plain decimal port, and brackets only where a host needs them. */
  predicate Canonical(names: Names, destination: text) {
    var hp := SplitHostPort(destination);
    && hp.Some? && Atoi(hp.value.port).Some? && 0 < Atoi(hp.value.port).value <= 65535
    && Shown(names, hp.value.host) == hp.value.host
    && Itoa(Atoi(hp.value.port).value) == hp.value.port
    && (destination[0] == OPEN ==> COLON in hp.value.host)
  }

  lemma AddressRoundTrip(names: Names, host: text, rest: seq<byte>)
    requires Lawful(names) && EncodeAddress(names, host).Some?
    ensures var address := EncodeAddress(names, host).value;
      ParseAddress(names, address + rest) == Some((Shown(names, host), |address|))
  {
    var address := EncodeAddress(names, host).value;
    var packet := address + rest;
    assert packet[..|address|] == address;
    if names.parse(host).Some? {
      var a := names.parse(host).value;
      assert packet[1..1 + |a|] == a;
    } else {
      assert packet[2..2 + |host|] == host;
    }
  }

  /** What is built parses again: to the same payload, and to the destination in canonical form. */
  lemma ParseOfBuild(names: Names, destination: text, payload: seq<byte>)
    requires Lawful(names) && Build(names, destination, payload).Some?
    ensures var hp := SplitHostPort(destination).value;
      Parse(names, Build(names, destination, payload).value)
        == Some(Datagram(JoinHostPort(Shown(names, hp.host), Itoa(Atoi(hp.port).value)), payload))
  {
    var hp := SplitHostPort(destination).value;
    var port := Atoi(hp.port).value;
    var address := EncodeAddress(names, hp.host).value;
    var tail := PutUint16(port) + payload;
    var packet := Build(names, destination, payload).value;
    assert packet == [0, 0, 0] + (address + tail);
    assert packet[3..] == address + tail;
    AddressRoundTrip(names, hp.host, tail);
    Uint16OfPut(port);
    assert packet[3 + |address|..] == tail;
    assert packet[3 + |address|..3 + |address| + 2] == PutUint16(port);
    assert packet[3 + |address| + 2..] == payload;
  }

  lemma SplitPartsAreClean(host: text, port: text, s: text)
    requires SplitHostPort(s) == Some(HostPort(host, port))
    ensures NoBrackets(host) && NoBrackets(port) && COLON !in port
  {
    var i := LastIndexOf(s, COLON);
    if s[0] == OPEN {
      BracketedParts(s, IndexOf(s, CLOSE), i);
    } else {
      assert forall k :: 0 <= k < |host| ==> host[k] == s[k];
      assert forall k :: 0 <= k < |port| ==> port[k] == s[i + 1 + k];
    }
  }

  lemma BracketedParts(s: text, end: nat, i: nat)
    requires 0 < end && end + 1 == i < |s| && OPEN !in s[1..] && CLOSE !in s[..end] && CLOSE !in s[end + 1..]
    ensures NoBrackets(s[1..end]) && NoBrackets(s[i + 1..])
  {
    var host, port := s[1..end], s[i + 1..];
    assert forall k :: 0 <= k < |host| ==> host[k] == s[1..][k] == s[..end][k + 1];
    assert forall k :: 0 <= k < |port| ==> port[k] == s[1..][i + k] == s[end + 1..][k + 1];
  }

  lemma DigitsAreClean(t: text)
    requires Digits(t)
    ensures NoBrackets(t) && COLON !in t
  {
  }

  /** Parsing after building is the identity exactly on canonical destinations. */
  lemma RoundTripIffCanonical(names: Names, destination: text, payload: seq<byte>)
    requires Lawful(names) && Build(names, destination, payload).Some?
    ensures Parse(names, Build(names, destination, payload).value) == Some(Datagram(destination, payload))
      <==> Canonical(names, destination)
  {
    ParseOfBuild(names, destination, payload);
    var hp := SplitHostPort(destination).value;
    var host, port := Shown(names, hp.host), Itoa(Atoi(hp.port).value);
    SplitPartsAreClean(hp.host, hp.port, destination);
    DigitsAreClean(port);
    JoinOfSplit(destination);
    if JoinHostPort(host, port) == destination {
      SplitOfJoin(host, port);
    }
  }

  // ----- The other direction ----------------------------------------------------------------------------------

  /** The packet says its address the way the encoder would. */
  predicate AddressIsPlain(names: Names, packet: seq<byte>)
    requires Parse(names, packet).Some?
  {
    match packet[3]
    case 1 => true
    case 3 => var domain := packet[5..5 + packet[4] as int]; names.parse(domain) == None && NoBrackets(domain)
    case _ => Unmapped(packet[4..20]) == packet[4..20]
  }

  /** Splitting a joined destination finds no other host and port: it may only fail. */
  lemma BuildOfJoined(names: Names, host: text, port: nat, payload: seq<byte>)
    requires 0 < port <= 65535
    ensures var out := Build(names, JoinHostPort(host, Itoa(port)), payload);
      NoBrackets(host) ==>
        match EncodeAddress(names, host)
        case None => out == None
        case Some(address) => out == Some([0, 0, 0] + address + PutUint16(port) + payload)
  {
    if NoBrackets(host) {
      DigitsAreClean(Itoa(port));
      SplitOfJoin(host, Itoa(port));
      AtoiOfItoa(port);
    }
  }

  /** A domain in a built packet holds no brackets: splitting never leaves any. */
  lemma BuiltDomainsAreClean(names: Names, destination: text, payload: seq<byte>)
    requires Lawful(names) && Build(names, destination, payload).Some?
    ensures var out := Build(names, destination, payload).value;
      |out| >= 5 && (out[3] == 3 ==> |out| >= 5 + out[4] as int && NoBrackets(out[5..5 + out[4] as int]))
  {
    var hp := SplitHostPort(destination).value;
    SplitPartsAreClean(hp.host, hp.port, destination);
    var address := EncodeAddress(names, hp.host).value;
    var out := Build(names, destination, payload).value;
    assert out[3..3 + |address|] == address;
    if names.parse(hp.host) == None {
      assert out[5..5 + |hp.host|] == address[2..] == hp.host;
    }
  }

  lemma BracketsAreNotBuilt(names: Names, destination: text, payload: seq<byte>, packet: seq<byte>)
    requires Lawful(names) && |packet| >= 5 && packet[3] == 3
    requires |packet| >= 5 + packet[4] as int && !NoBrackets(packet[5..5 + packet[4] as int])
    ensures Build(names, destination, payload) != Some(packet)
  {
    if Build(names, destination, payload).Some? {
      BuiltDomainsAreClean(names, destination, payload);
    }
  }

  /** Building after parsing is the identity exactly on packets with a plain address: an IPv4-mapped
      IPv6 address comes back as IPv4, a domain that is an address as that address, and a domain with
      brackets in it not at all. */
  lemma BuildOfParse(names: Names, packet: seq<byte>)
    requires Lawful(names) && Parse(names, packet).Some?
    ensures var d := Parse(names, packet).value;
      Build(names, d.destination, d.payload) == Some(packet) <==> AddressIsPlain(names, packet)
  {
    var d := Parse(names, packet).value;
    var (host, used) := ParseAddress(names, packet[3..]).value;
    assert packet[3] == 3 ==> host == packet[5..5 + packet[4] as int];
    if packet[3] == 3 && !NoBrackets(host) {
      BracketsAreNotBuilt(names, d.destination, d.payload, packet);
    } else {
      AddressKept(names, packet, host, used);
      RebuiltWithAddress(names, packet, host, used);
      SameIffSameAddress(packet, used, EncodeAddress(names, host).value, d.payload);
    }
  }

  lemma RebuiltWithAddress(names: Names, packet: seq<byte>, host: text, used: nat)
    requires Parse(names, packet).Some? && ParseAddress(names, packet[3..]) == Some((host, used))
    requires NoBrackets(host) && EncodeAddress(names, host).Some?
    ensures |packet| >= 5 + used && Parse(names, packet).value.payload == packet[5 + used..]
    ensures var d := Parse(names, packet).value;
      Build(names, d.destination, d.payload)
        == Some([0, 0, 0] + EncodeAddress(names, host).value + packet[3 + used..5 + used] + d.payload)
  {
    var port := packet[3 + used..5 + used];
    PutOfUint16(port);
    BuildOfJoined(names, host, Uint16(port), packet[5 + used..]);
  }

  lemma SameIffSameAddress(packet: seq<byte>, used: nat, address: seq<byte>, payload: seq<byte>)
    requires |packet| >= 5 + used && packet[0] == 0 && packet[1] == 0 && packet[2] == 0 && payload == packet[5 + used..]
    ensures [0, 0, 0] + address + packet[3 + used..5 + used] + payload == packet <==> address == packet[3..3 + used]
  {
    PacketParts(packet, used);
    var out := [0, 0, 0] + address + packet[3 + used..5 + used] + payload;
    assert |out| == 5 + |address| + |payload|;
    assert out[3..3 + |address|] == address;
  }

  lemma PacketParts(packet: seq<byte>, used: nat)
    requires |packet| >= 5 + used && packet[0] == 0 && packet[1] == 0 && packet[2] == 0
    ensures packet == [0, 0, 0] + packet[3..3 + used] + packet[3 + used..5 + used] + packet[5 + used..]
  {
  }

  lemma AddressKept(names: Names, packet: seq<byte>, host: text, used: nat)
    requires Lawful(names) && Parse(names, packet).Some? && ParseAddress(names, packet[3..]) == Some((host, used))
    requires packet[3] == 3 ==> NoBrackets(host)
    ensures NoBrackets(host) && EncodeAddress(names, host).Some?
    ensures EncodeAddress(names, host).value == packet[3..3 + used] <==> AddressIsPlain(names, packet)
  {
    if packet[3] == 1 {
      var a := packet[3..][1..5];
      assert IsAddress(a) && packet[3..3 + used] == [1] + a;
    } else if packet[3] == 3 {
      assert packet[3..][2..2 + packet[4] as int] == packet[5..5 + packet[4] as int];
      assert packet[3..3 + used] == [3, packet[4]] + host;
    } else {
      var a := packet[3..][1..17];
      assert a == packet[4..20] && packet[3..3 + used] == [4] + a;
      assert IsAddress(Unmapped(a));
    }
  }

  // ----- Such names exist: two letters a byte -----------------------------------------------------------------

  predicate Letters(t: text) {
    |t| % 2 == 0 && forall c :: c in t ==> 97 <= c < 113
  }

  function ShowLetters(a: Address): (t: text)
    ensures Letters(t) && |t| == 2 * |a|
  {
    if a == [] then [] else ShowLetters(a[..|a| - 1]) + [97 + a[|a| - 1] / 16, 97 + a[|a| - 1] % 16]
  }

  function FromLetters(t: text): (a: Address)
    requires Letters(t)
  {
    if t == [] then []
    else
      var n := |t| - 2;
      assert t[n] in t && t[n + 1] in t && forall c :: c in t[..n] ==> c in t;
      FromLetters(t[..n]) + [(t[n] - 97) * 16 + t[n + 1] as int - 97]
  }

  lemma {:induction false} FromShown(a: Address)
    ensures FromLetters(ShowLetters(a)) == a
  {
    if a != [] {
      var t, n := ShowLetters(a), |a| - 1;
      FromShown(a[..n]);
      assert t[..|t| - 2] == ShowLetters(a[..n]);
      assert a == a[..n] + [a[n]];
    }
  }

  function ParseLetters(t: text): Option<Address> {
    if Letters(t) && IsAddress(FromLetters(t)) then Some(FromLetters(t)) else None
  }

  lemma LawfulNamesExist()
    ensures Lawful(Names(ParseLetters, ShowLetters))
  {
    forall a: Address | IsAddress(a)
      ensures ParseLetters(ShowLetters(a)) == Some(a) && ShowLetters(a) != [] && NoBrackets(ShowLetters(a))
    {
      FromShown(a);
    }
  }
}
