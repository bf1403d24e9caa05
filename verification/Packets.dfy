// IP packets as hosts send them, and the flow the capture reader of InspectorActivity.java takes them for.
module Packets {
  import opened Bytes
  import opened Pcap

  /** One end of a conversation. */
  datatype End = End(host: Host, port: nat)

  /** A TCP segment or UDP datagram: the two ports, and the rest of it. */
  function Segment(sender: End, receiver: End, rest: seq<byte>): (r: seq<byte>)
    ensures |r| == 4 + |rest|
  {
    PutUint16(sender.port) + PutUint16(receiver.port) + rest
  }

  predicate HasPort(e: End) {
    e.port < 0x1_0000
  }

  /** The rest of a whole TCP or UDP header is there. */
  predicate IsWhole(protocol: int, rest: seq<byte>) {
    || (protocol == 6 && |rest| >= 16)
    || (protocol == 17 && |rest| >= 4)
  }

  lemma PortsOfSegment(p: seq<byte>, offset: nat, sender: End, receiver: End, rest: seq<byte>)
    requires HasPort(sender) && HasPort(receiver)
    requires offset <= |p| && p[offset..] == Segment(sender, receiver, rest)
    ensures |p| == offset + 4 + |rest|
    ensures Uint16(p[offset..offset + 2]) == sender.port && Uint16(p[offset + 2..offset + 4]) == receiver.port
  {
    var s := Segment(sender, receiver, rest);
    assert p[offset..offset + 2] == s[..2] == PutUint16(sender.port);
    assert p[offset + 2..offset + 4] == s[2..4] == PutUint16(receiver.port);
    Uint16OfPut(sender.port);
    Uint16OfPut(receiver.port);
  }

  /** Either way, the phone's end of a conversation is the local one. */
  lemma KeyOfSegment(p: seq<byte>, offset: nat, protocol: int, phone: End, other: End, outgoing: bool, rest: seq<byte>)
    requires HasPort(phone) && HasPort(other) && IsLocalVpnAddress(phone.host) && !IsLocalVpnAddress(other.host)
    requires offset <= |p|
    requires p[offset..] == if outgoing then Segment(phone, other, rest) else Segment(other, phone, rest)
    ensures var (src, dst) := if outgoing then (phone.host, other.host) else (other.host, phone.host);
      KeyOf(p, Transport(offset, protocol), src, dst)
        == if IsWhole(protocol, rest) then Some(FlowKey(protocol == 6, phone.host, phone.port, other.host, other.port))
           else None
  {
    if outgoing {
      PortsOfSegment(p, offset, phone, other, rest);
    } else {
      PortsOfSegment(p, offset, other, phone, rest);
    }
  }

  // ----- IPv4 ------------------------------------------------------------------------------------------

  /** What an IPv4 header holds besides the addresses and the protocol; `units` is its length in words. */
  datatype Header4 = Header4(units: nat, service: seq<byte>, fragment: nat, ttl: byte, checksum: seq<byte>,
                             options: seq<byte>)
  {
    predicate Valid() {
      && 5 <= units < 16 && |service| == 5 && fragment < 0x1_0000 && |checksum| == 2
      && |options| == 4 * (units - 5)
    }
  }

  function Fixed4(h: Header4, protocol: byte): (r: seq<byte>)
    requires h.Valid()
    ensures |r| == 12
  {
    [0x40 + h.units] + h.service + PutUint16(h.fragment) + [h.ttl, protocol] + h.checksum
  }

  function IPv4(h: Header4, protocol: byte, src: Host, dst: Host, payload: seq<byte>): seq<byte>
    requires h.Valid() && |src| == |dst| == 4
  {
    Fixed4(h, protocol) + (src + (dst + (h.options + payload)))
  }

  lemma Fields4(h: Header4, protocol: byte)
    requires h.Valid()
    ensures var r := Fixed4(h, protocol);
      r[0] / 16 == 4 && r[0] % 16 == h.units && r[6..8] == PutUint16(h.fragment) && r[9] == protocol
  {
  }

  lemma Slices4(h: Header4, protocol: byte, src: Host, dst: Host, payload: seq<byte>)
    requires h.Valid() && |src| == |dst| == 4
    ensures var p := IPv4(h, protocol, src, dst, payload);
      && |p| >= 20 && 4 * h.units <= |p|
      && p[0] == Fixed4(h, protocol)[0] && p[6..8] == Fixed4(h, protocol)[6..8] && p[9] == Fixed4(h, protocol)[9]
      && p[12..16] == src && p[16..20] == dst && p[4 * h.units..] == payload
  {
    var p := IPv4(h, protocol, src, dst, payload);
    assert p[6..8] == Fixed4(h, protocol)[6..8];
    assert p[12..16] == src && p[16..20] == dst;
    assert p[20..] == h.options + payload;
    assert p[4 * h.units..] == p[20..][|h.options|..];
  }

  /** An IPv4 packet between the phone and another host belongs, in both directions, to the flow of its two ends,
      unless it is a later fragment or lacks part of its TCP or UDP header: then it belongs to none. */
  lemma FlowOfIPv4(h: Header4, protocol: byte, phone: End, other: End, outgoing: bool, rest: seq<byte>)
    requires h.Valid() && HasPort(phone) && HasPort(other)
    requires phone.host == [198, 18, 0, 1] && |other.host| == 4 && other.host != phone.host
    ensures var p := if outgoing then IPv4(h, protocol, phone.host, other.host, Segment(phone, other, rest))
                     else IPv4(h, protocol, other.host, phone.host, Segment(other, phone, rest));
      && |p| >= 20
      && FlowOf(p) ==
           if h.fragment % 0x2000 == 0 && IsWhole(protocol, rest)
           then Some(FlowKey(protocol == 6, phone.host, phone.port, other.host, other.port)) else None
  {
    var sender, receiver := if outgoing then phone else other, if outgoing then other else phone;
    var payload := Segment(sender, receiver, rest);
    var p := IPv4(h, protocol, sender.host, receiver.host, payload);
    Fields4(h, protocol);
    Slices4(h, protocol, sender.host, receiver.host, payload);
    Uint16OfPut(h.fragment);
    KeyOfSegment(p, 4 * h.units, protocol, phone, other, outgoing, rest);
  }

  // ----- IPv6 ------------------------------------------------------------------------------------------

  /** One extension header: its kind, its length field and what follows the two. */
  datatype Extension = Extension(kind: byte, units: byte, body: seq<byte>)
  {
    /** Hop-by-hop, routing and destination options come in eights, a fragment header is one of them, and an
        authentication header counts words beyond two. */
    predicate Valid() {
      || (kind in {0, 43, 60} && |body| + 2 == 8 * (units + 1))
      || (kind == 44 && |body| + 2 == 8)
      || (kind == 51 && |body| + 2 == 4 * (units + 2))
    }

    /** A fragment other than the first. */
    predicate IsLater()
      requires Valid()
    {
      kind == 44 && Uint16(body[..2]) / 8 > 0
    }
  }

  function FirstKind(chain: seq<Extension>, last: byte): byte {
    if chain == [] then last else chain[0].kind
  }

  function Chain(chain: seq<Extension>, last: byte): seq<byte> {
    if chain == [] then []
    else [FirstKind(chain[1..], last), chain[0].units] + chain[0].body + Chain(chain[1..], last)
  }

  ghost predicate AllValid(chain: seq<Extension>) {
    forall i :: 0 <= i < |chain| ==> chain[i].Valid()
  }

  ghost predicate AnyLater(chain: seq<Extension>)
    requires AllValid(chain)
  {
    exists i :: 0 <= i < |chain| && chain[i].IsLater()
  }

  lemma ReadsExtension(p: seq<byte>, offset: nat, e: Extension, next: byte, after: seq<byte>)
    requires e.Valid() && offset <= |p| && p[offset..] == [next, e.units] + e.body + after
    ensures offset + 8 <= |p| && p[offset] == next
    ensures offset + HeaderSize(p, e.kind, offset) == offset + 2 + |e.body| <= |p|
    ensures p[offset + 2 + |e.body|..] == after
    ensures LaterFragment(p, e.kind, offset) <==> e.IsLater()
  {
    var s := [next, e.units] + e.body + after;
    assert p[offset] == p[offset..][0] && p[offset + 1] == p[offset..][1] == s[1];
    assert p[offset + 2..offset + 4] == s[2..4] == e.body[..2];
    assert p[offset + 2 + |e.body|..] == s[2 + |e.body|..] == after;
  }

  /** The reader gets past a chain of extension headers shorter than its limit that holds no later fragment, and
      past no other. */
  lemma {:induction false} ChainIsSkipped(p: seq<byte>, offset: nat, chain: seq<Extension>, last: byte, left: nat,
                                          payload: seq<byte>)
    requires AllValid(chain) && last !in {0, 43, 44, 51, 60}
    requires offset <= |p| && p[offset..] == Chain(chain, last) + payload
    ensures offset + |Chain(chain, last)| + |payload| == |p|
    ensures Skip(p, offset, FirstKind(chain, last), left)
      == if |chain| < left && !AnyLater(chain) then Transport(offset + |Chain(chain, last)|, last)
         else Transport(|p|, -1)
    decreases |chain|
  {
    if chain != [] {
      var e, rest := chain[0], chain[1..];
      var after := Chain(rest, last) + payload;
      assert [FirstKind(rest, last), e.units] + e.body + after == Chain(chain, last) + payload;
      ReadsExtension(p, offset, e, FirstKind(rest, last), after);
      ChainIsSkipped(p, offset + 2 + |e.body|, rest, last, if left > 0 then left - 1 else 0, payload);
      LaterSplits(chain);
    }
  }

  lemma LaterSplits(chain: seq<Extension>)
    requires AllValid(chain) && chain != []
    ensures AnyLater(chain) <==> chain[0].IsLater() || AnyLater(chain[1..])
  {
    if AnyLater(chain[1..]) {
      var i :| 0 <= i < |chain[1..]| && chain[1..][i].IsLater();
      assert chain[i + 1].IsLater();
    }
    if AnyLater(chain) && !chain[0].IsLater() {
      var i :| 0 <= i < |chain| && chain[i].IsLater();
      assert chain[1..][i - 1].IsLater();
    }
  }

  /** `lead` is the version, class and label; `middle` the length, and `hops` the hop limit. */
  function Fixed6(lead: seq<byte>, middle: seq<byte>, next: byte, hops: byte): (r: seq<byte>)
    requires |lead| == 4 && |middle| == 2
    ensures |r| == 8
  {
    lead + middle + [next, hops]
  }

  function IPv6(fixed: seq<byte>, src: Host, dst: Host, payload: seq<byte>): seq<byte>
    requires |fixed| == 8 && |src| == |dst| == 16
  {
    fixed + (src + (dst + payload))
  }

  lemma Slices6(fixed: seq<byte>, src: Host, dst: Host, payload: seq<byte>)
    requires |fixed| == 8 && |src| == |dst| == 16
    ensures var p := IPv6(fixed, src, dst, payload);
      && |p| == 40 + |payload| && p[0] == fixed[0] && p[6] == fixed[6]
      && p[8..24] == src && p[24..40] == dst && p[40..] == payload
  {
  }

  /** No IPv4 address in disguise. */
  predicate Plain6(host: Host) {
    |host| == 16 && host[..12] != [0, 0, 0, 0, 0, 0, 0, 0, 0, 0, 255, 255]
  }

  /** Those are taken for the IPv4 host in their last four octets, any other address for itself. */
  lemma DisguisedIsIPv4(host: Host)
    requires |host| == 4 || Plain6(host)
    ensures HostOf(host) == host
    ensures |host| == 4 ==> HostOf([0, 0, 0, 0, 0, 0, 0, 0, 0, 0, 255, 255] + host) == host
  {
  }

  const VPN_PREFIX: seq<byte> := [253, 0, 0, 1, 253, 0, 0, 1]

  /** The same for IPv6, behind at most seven extension headers without a later fragment among them. */
  lemma FlowOfIPv6(lead: seq<byte>, middle: seq<byte>, hops: byte, chain: seq<Extension>, protocol: byte,
                   phone: End, other: End, outgoing: bool, rest: seq<byte>)
    requires |lead| == 4 && lead[0] / 16 == 6 && |middle| == 2 && AllValid(chain) && protocol in {6, 17}
    requires HasPort(phone) && HasPort(other) && Plain6(phone.host) && Plain6(other.host)
    requires phone.host[..8] == VPN_PREFIX && other.host[..8] != VPN_PREFIX
    ensures var fixed := Fixed6(lead, middle, FirstKind(chain, protocol), hops);
      var p := if outgoing
               then IPv6(fixed, phone.host, other.host, Chain(chain, protocol) + Segment(phone, other, rest))
               else IPv6(fixed, other.host, phone.host, Chain(chain, protocol) + Segment(other, phone, rest));
      && |p| >= 20
      && FlowOf(p) ==
           if |chain| < 8 && !AnyLater(chain) && IsWhole(protocol, rest)
           then Some(FlowKey(protocol == 6, phone.host, phone.port, other.host, other.port)) else None
  {
    var sender, receiver := if outgoing then phone else other, if outgoing then other else phone;
    var fixed := Fixed6(lead, middle, FirstKind(chain, protocol), hops);
    var headers, segment := Chain(chain, protocol), Segment(sender, receiver, rest);
    var p := IPv6(fixed, sender.host, receiver.host, headers + segment);
    Slices6(fixed, sender.host, receiver.host, headers + segment);
    ChainIsSkipped(p, 40, chain, protocol, 8, segment);
    assert p[40 + |headers|..] == p[40..][|headers|..] == segment;
    KeyOfSegment(p, 40 + |headers|, protocol, phone, other, outgoing, rest);
  }

  // ----- The packet list -------------------------------------------------------------------------------

  /** The records long enough for an IPv4 header. */
  function HowMany(rs: seq<Record>): nat {
    if rs == [] then 0 else HowMany(rs[..|rs| - 1]) + if |rs[|rs| - 1].data| >= 20 then 1 else 0
  }

  /** Each of them is entered under the next number, with its time, its whole length and at most 2048 octets. */
  lemma {:induction false} EntriesAreRecords(rs: seq<Record>, j: nat)
    requires j < |rs|
    ensures |Numbered(rs)| == HowMany(rs) >= HowMany(rs[..j])
    ensures |rs[j].data| >= 20 ==>
      var n, d := HowMany(rs[..j]), rs[j].data;
      n < |Numbered(rs)| && Numbered(rs)[n] == Packet(n + 1, rs[j].when, |d|, if |d| <= 2048 then d else d[..2048])
    decreases |rs|
  {
    var last := |rs| - 1;
    if last > 0 {
      EntriesAreRecords(rs[..last], if j < last then j else 0);
    } else {
      assert rs[..last] == [];
    }
    if j < last {
      assert rs[..last][..j] == rs[..j];
    }
  }

  // ----- When flows are seen ---------------------------------------------------------------------------

  predicate IsFirstOf(rs: seq<Record>, key: FlowKey, i: nat) {
    i < |rs| && Of(rs[i], key) && forall k :: 0 <= k < i ==> !Of(rs[k], key)
  }

  predicate IsLastOf(rs: seq<Record>, key: FlowKey, i: nat) {
    i < |rs| && Of(rs[i], key) && forall k :: i < k < |rs| ==> !Of(rs[k], key)
  }

  /** A flow in the table carries the time of its last packet, evictions or not. */
  lemma {:induction false} LastSeenIsLastPacket(pick: Pick, rs: seq<Record>, key: FlowKey, i: nat)
    requires PicksOldest(pick) && IsLastOf(rs, key, i) && key in AddAll(pick, EMPTY, rs).flows
    ensures AddAll(pick, EMPTY, rs).flows[key].lastSeen == rs[i].when
  {
    var before, r := rs[..|rs| - 1], rs[|rs| - 1];
    if i < |rs| - 1 {
      OthersLeave(pick, AddAll(pick, EMPTY, before), r, key);
      LastSeenIsLastPacket(pick, before, key, i);
    }
  }

  lemma OthersLeave(pick: Pick, t: Table, r: Record, key: FlowKey)
    requires !Of(r, key) && key in Add(pick, t, r).flows
    ensures key in t.flows && Add(pick, t, r).flows[key] == t.flows[key]
  {
  }

  /** While all flows fit, every flow also carries the time of its first packet. */
  lemma {:induction false} FirstSeenIsFirstPacket(pick: Pick, rs: seq<Record>, key: FlowKey, i: nat)
    requires |Seen(rs)| <= MAX_FLOWS && IsFirstOf(rs, key, i)
    ensures key in AddAll(pick, EMPTY, rs).flows && AddAll(pick, EMPTY, rs).flows[key].firstSeen == rs[i].when
  {
    var before, r := rs[..|rs| - 1], rs[|rs| - 1];
    SeenGrows(before, rs);
    FlowsCountTheirPackets(pick, before, key);
    FlowsCountTheirPackets(pick, rs, key);
    if i < |rs| - 1 {
      FirstSeenIsFirstPacket(pick, before, key, i);
    } else {
      NoneBefore(before, key);
    }
  }

  lemma {:induction false} NoneBefore(rs: seq<Record>, key: FlowKey)
    requires forall k :: 0 <= k < |rs| ==> !Of(rs[k], key)
    ensures key !in Seen(rs)
  {
    if rs != [] {
      NoneBefore(rs[..|rs| - 1], key);
      assert !Of(rs[|rs| - 1], key);
    }
  }
}
