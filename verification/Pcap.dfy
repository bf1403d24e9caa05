// The incremental capture reader of android/.../InspectorActivity.java.
module Pcap {
  import opened Bytes

  // ----- IP packets ------------------------------------------------------------------------------------

  /** Transport header offset and protocol, -1 for none. */
  datatype Transport = Transport(offset: nat, protocol: int)

  const EXTENSIONS: set<int> := {0, 43, 44, 51, 60}

  function HeaderSize(p: seq<byte>, protocol: int, offset: nat): (n: nat)
    requires offset + 8 <= |p|
    ensures n >= 8
  {
    var units: int := p[offset + 1];
    if protocol == 44 then 8 else if protocol == 51 then (units + 2) * 4 else (units + 1) * 8
  }

  predicate LaterFragment(p: seq<byte>, protocol: int, offset: nat)
    requires offset + 8 <= |p|
  {
    protocol == 44 && Uint16(p[offset + 2..offset + 4]) >= 8
  }

  /** Where a chain of at most `left` extension headers leads. */
  function Skip(p: seq<byte>, offset: nat, protocol: int, left: nat): Transport
    decreases left
  {
    if left == 0 then Transport(|p|, -1)
    else if protocol !in EXTENSIONS then Transport(offset, protocol)
    else if offset + 8 > |p| || LaterFragment(p, protocol, offset) then Transport(|p|, -1)
    else
      var next := offset + HeaderSize(p, protocol, offset);
      if next > |p| then Transport(|p|, -1) else Skip(p, next, p[offset], left - 1)
  }

  /** A transport header found behind extension headers lies inside the packet, is no extension
      header, and is not part of a later fragment's payload. */
  lemma {:induction false} SkipStaysInside(p: seq<byte>, offset: nat, protocol: int, left: nat)
    requires offset <= |p| && protocol >= 0
    ensures var t := Skip(p, offset, protocol, left);
      offset <= t.offset <= |p| && t.protocol !in EXTENSIONS && (t.protocol == -1 ==> t.offset == |p|)
    decreases left
  {
    if left > 0 && protocol in EXTENSIONS && offset + 8 <= |p| && !LaterFragment(p, protocol, offset) {
      var next := offset + HeaderSize(p, protocol, offset);
      if next <= |p| {
        SkipStaysInside(p, next, p[offset], left - 1);
      }
    }
  }

  type Host = seq<byte>

  /** InetAddress.getByAddress: an IPv4-mapped IPv6 address is the IPv4 address. */
  function HostOf(raw: seq<byte>): Host
    requires |raw| == 4 || |raw| == 16
  {
    if |raw| == 16 && raw[..12] == [0, 0, 0, 0, 0, 0, 0, 0, 0, 0, 255, 255] then raw[12..] else raw
  }

  predicate IsLocalVpnAddress(host: Host) {
    host == [198, 18, 0, 1] || (|host| == 16 && host[..8] == [253, 0, 0, 1, 253, 0, 0, 1])
  }

  datatype FlowKey = FlowKey(tcp: bool, local: Host, localPort: nat, remote: Host, remotePort: nat)

  function KeyOf(p: seq<byte>, t: Transport, src: Host, dst: Host): Option<FlowKey> {
    if t.protocol != 6 && t.protocol != 17 then None
    else if |p| < t.offset + (if t.protocol == 6 then 20 else 8) then None
    else
      var srcPort, dstPort := Uint16(p[t.offset..t.offset + 2]), Uint16(p[t.offset + 2..t.offset + 4]);
      if IsLocalVpnAddress(src) then Some(FlowKey(t.protocol == 6, src, srcPort, dst, dstPort))
      else Some(FlowKey(t.protocol == 6, dst, dstPort, src, srcPort))
  }

  /** The flow a packet belongs to, if it is an initial TCP or UDP packet. */
  function FlowOf(p: seq<byte>): Option<FlowKey>
    requires |p| >= 20
  {
    if p[0] / 16 == 4 then
      var ihl := (p[0] % 16) * 4;
      if ihl < 20 || |p| < ihl + 4 || Uint16(p[6..8]) % 0x2000 != 0 then None
      else KeyOf(p, Transport(ihl, p[9]), HostOf(p[12..16]), HostOf(p[16..20]))
    else if p[0] / 16 == 6 && |p| >= 44 then
      KeyOf(p, Skip(p, 40, p[6], 8), HostOf(p[8..24]), HostOf(p[24..40]))
    else None
  }

  // ----- The tables ------------------------------------------------------------------------------------

  datatype Packet = Packet(number: nat, when: int, length: nat, data: seq<byte>)

  datatype Flow = Flow(packets: nat, bytes: nat, firstSeen: int, lastSeen: int)

  type Flows = map<FlowKey, Flow>

  datatype Table = Table(number: nat, packets: seq<Packet>, flows: Flows)

  const EMPTY := Table(0, [], map[])
  const SHOWN := 200
  const MAX_FLOWS := 2048

  /** Which least recently seen flow Collections.min returns is up to the map's order. */
  type Pick = Flows -> FlowKey

  ghost predicate PicksOldest(pick: Pick) {
    forall flows: Flows {:trigger pick(flows)} :: flows != map[] ==>
      pick(flows) in flows && forall k :: k in flows ==> flows[pick(flows)].lastSeen <= flows[k].lastSeen
  }

  function Touch(pick: Pick, flows: Flows, key: FlowKey, when: int, size: nat): Flows {
    if key in flows then
      var f := flows[key];
      flows[key := Flow(f.packets + 1, f.bytes + size, f.firstSeen, when)]
    else
      (if |flows| >= MAX_FLOWS then flows - {pick(flows)} else flows)[key := Flow(1, size, when, when)]
  }

  datatype Record = Record(when: int, data: seq<byte>)

  predicate Counts(r: Record) {
    |r.data| >= 20
  }

  function Entry(r: Record, number: nat): Packet {
    Packet(number, r.when, |r.data|, if |r.data| <= 2048 then r.data else r.data[..2048])
  }

  function DropOne(ps: seq<Packet>): seq<Packet> {
    if |ps| > SHOWN then ps[1..] else ps
  }

  /** parsePacket. */
  function Add(pick: Pick, t: Table, r: Record): Table {
    if !Counts(r) then t
    else
      Table(t.number + 1, DropOne(t.packets + [Entry(r, t.number + 1)]),
            var key := FlowOf(r.data); if key.Some? then Touch(pick, t.flows, key.value, r.when, |r.data|) else t.flows)
  }

  function AddAll(pick: Pick, t: Table, rs: seq<Record>): Table {
    if rs == [] then t else Add(pick, AddAll(pick, t, rs[..|rs| - 1]), rs[|rs| - 1])
  }

  lemma {:induction false} AddAllAppend(pick: Pick, t: Table, a: seq<Record>, b: seq<Record>)
    ensures AddAll(pick, t, a + b) == AddAll(pick, AddAll(pick, t, a), b)
    decreases |b|
  {
    if b == [] {
      assert a + b == a;
    } else {
      var n := |b| - 1;
      AddAllAppend(pick, t, a, b[..n]);
      assert (a + b)[..|a| + n] == a + b[..n] && (a + b)[|a| + n] == b[n];
    }
  }

  // ----- What the tables hold ------------------------------------------------------------------------------

  /** The packets that count, numbered from 1. */
  function Numbered(rs: seq<Record>): (r: seq<Packet>)
    ensures forall i :: 0 <= i < |r| ==> r[i].number == i + 1
  {
    if rs == [] then [] else AndNext(Numbered(rs[..|rs| - 1]), rs[|rs| - 1])
  }

  function AndNext(ps: seq<Packet>, r: Record): seq<Packet> {
    if Counts(r) then ps + [Entry(r, |ps| + 1)] else ps
  }

  function Last(ps: seq<Packet>): seq<Packet> {
    if |ps| > SHOWN then ps[|ps| - SHOWN..] else ps
  }

  lemma LastOfLast(ps: seq<Packet>, p: Packet)
    ensures DropOne(Last(ps) + [p]) == Last(ps + [p])
  {
  }

  lemma ListGrows(pick: Pick, t: Table, ps: seq<Packet>, r: Record)
    requires t.number == |ps| && t.packets == Last(ps)
    ensures Add(pick, t, r).number == |AndNext(ps, r)| && Add(pick, t, r).packets == Last(AndNext(ps, r))
  {
    LastOfLast(ps, Entry(r, |ps| + 1));
  }

  /** The list shows the last 200 of the counted packets, under consecutive numbers. */
  lemma {:induction false} ListIsLastPackets(pick: Pick, rs: seq<Record>)
    ensures var t := AddAll(pick, EMPTY, rs);
      t.number == |Numbered(rs)| && t.packets == Last(Numbered(rs))
  {
    if rs != [] {
      var before, r := rs[..|rs| - 1], rs[|rs| - 1];
      ListIsLastPackets(pick, before);
      ListGrows(pick, AddAll(pick, EMPTY, before), Numbered(before), r);
    }
  }

  /** The flow table never outgrows its bound. */
  lemma {:induction false} FlowTableIsBounded(pick: Pick, rs: seq<Record>)
    requires PicksOldest(pick)
    ensures |AddAll(pick, EMPTY, rs).flows| <= MAX_FLOWS
  {
    if rs != [] {
      FlowTableIsBounded(pick, rs[..|rs| - 1]);
      var t, r := AddAll(pick, EMPTY, rs[..|rs| - 1]), rs[|rs| - 1];
      if Counts(r) && FlowOf(r.data).Some? {
        var key := FlowOf(r.data).value;
        TouchIsBounded(pick, t.flows, key, r.when, |r.data|);
      }
    }
  }

  lemma PutSize(flows: Flows, key: FlowKey, flow: Flow)
    ensures |flows[key := flow]| == |flows| + if key in flows then 0 else 1
  {
    var after := flows[key := flow];
    assert after.Keys == flows.Keys + {key};
    assert |after| == |after.Keys| && |flows| == |flows.Keys|;
  }

  lemma RemoveSize(flows: Flows, key: FlowKey)
    requires key in flows
    ensures |flows - {key}| == |flows| - 1
  {
    var after := flows - {key};
    assert after.Keys == flows.Keys - {key};
    assert |after| == |after.Keys| && |flows| == |flows.Keys|;
  }

  lemma TouchIsBounded(pick: Pick, flows: Flows, key: FlowKey, when: int, size: nat)
    requires PicksOldest(pick) && |flows| <= MAX_FLOWS
    ensures |Touch(pick, flows, key, when, size)| <= MAX_FLOWS
  {
    if key in flows {
      var f := flows[key];
      PutSize(flows, key, Flow(f.packets + 1, f.bytes + size, f.firstSeen, when));
    } else if |flows| >= MAX_FLOWS {
      assert flows != map[];
      RemoveSize(flows, pick(flows));
      PutSize(flows - {pick(flows)}, key, Flow(1, size, when, when));
    } else {
      PutSize(flows, key, Flow(1, size, when, when));
    }
  }

  /** A new flow in a full table displaces exactly one flow, and none was seen longer ago. */
  lemma EvictionDropsOldest(pick: Pick, flows: Flows, key: FlowKey, when: int, size: nat)
    requires PicksOldest(pick) && |flows| >= MAX_FLOWS && key !in flows
    ensures var after := Touch(pick, flows, key, when, size);
      exists gone :: gone in flows && gone !in after
        && (forall k :: k in flows ==>
              flows[gone].lastSeen <= flows[k].lastSeen && (k != gone ==> k in after && after[k] == flows[k]))
  {
    var gone := pick(flows);
    assert flows != map[];
    assert gone in flows && gone !in Touch(pick, flows, key, when, size);
  }

  predicate Of(r: Record, key: FlowKey) {
    Counts(r) && FlowOf(r.data) == Some(key)
  }

  function Seen(rs: seq<Record>): set<FlowKey> {
    if rs == [] then {}
    else
      var r := rs[|rs| - 1];
      Seen(rs[..|rs| - 1]) + if Counts(r) && FlowOf(r.data).Some? then {FlowOf(r.data).value} else {}
  }

  function PacketsOf(rs: seq<Record>, key: FlowKey): nat {
    if rs == [] then 0 else PacketsOf(rs[..|rs| - 1], key) + if Of(rs[|rs| - 1], key) then 1 else 0
  }

  function BytesOf(rs: seq<Record>, key: FlowKey): nat {
    if rs == [] then 0 else BytesOf(rs[..|rs| - 1], key) + if Of(rs[|rs| - 1], key) then |rs[|rs| - 1].data| else 0
  }

  /** While there are no more distinct flows than fit, every flow counts exactly its own packets and bytes. */
  lemma {:induction false} FlowsCountTheirPackets(pick: Pick, rs: seq<Record>, key: FlowKey)
    requires |Seen(rs)| <= MAX_FLOWS
    ensures var flows := AddAll(pick, EMPTY, rs).flows;
      && flows.Keys == Seen(rs)
      && (key in flows ==> flows[key].packets == PacketsOf(rs, key) && flows[key].bytes == BytesOf(rs, key))
      && (key !in flows ==> PacketsOf(rs, key) == 0 == BytesOf(rs, key))
  {
    if rs != [] {
      var before, r := rs[..|rs| - 1], rs[|rs| - 1];
      SeenGrows(before, rs);
      FlowsCountTheirPackets(pick, before, key);
      var flows := AddAll(pick, EMPTY, before).flows;
      if Counts(r) && FlowOf(r.data).Some? {
        var k := FlowOf(r.data).value;
        if k !in flows {
          assert Seen(rs) == Seen(before) + {k} && k !in Seen(before);
          assert |flows| == |flows.Keys| == |Seen(before)| < |Seen(rs)|;
        }
      }
    }
  }

  lemma SeenGrows(before: seq<Record>, rs: seq<Record>)
    requires rs != [] && before == rs[..|rs| - 1]
    ensures Seen(before) <= Seen(rs) && |Seen(before)| <= |Seen(rs)|
  {
    Subset(Seen(before), Seen(rs));
  }

  lemma Subset(a: set<FlowKey>, b: set<FlowKey>)
    requires a <= b
    ensures |a| <= |b|
  {
    assert b == a + (b - a);
  }

  // ----- The capture file ----------------------------------------------------------------------------------

  const GLOBAL := 24
  const HEADER := 16
  const MAX_PACKET := 1024 * 1024
  const MAGIC := 0xa1b2_c3d4
  const RAW_IP := 101

  function Reverse4(s: seq<byte>): (r: seq<byte>)
    requires |s| == 4
    ensures |r| == 4
  {
    [s[3], s[2], s[1], s[0]]
  }

  /** An unsigned 32-bit word in either byte order. */
  function Word(little: bool, s: seq<byte>): (n: nat)
    requires |s| == 4
    ensures n < 0x1_0000_0000
  {
    Uint32(if little then Reverse4(s) else s)
  }

  /** The same word as a Java int. */
  function Signed(n: nat): int {
    if n < 0x8000_0000 then n else n - 0x1_0000_0000
  }

  datatype Scan = AtEnd | Malformed | Found(record: Record, next: nat)

  /** One turn of the record loop at `pos`. */
  function ScanAt(file: seq<byte>, little: bool, pos: nat): (r: Scan)
    ensures r.Found? ==> pos + HEADER < r.next <= |file| && r.next == pos + HEADER + |r.record.data|
  {
    if pos + HEADER > |file| then AtEnd
    else
      var incl := Signed(Word(little, file[pos + 8..pos + 12]));
      if incl <= 0 || incl > MAX_PACKET then Malformed
      else if pos + HEADER + incl > |file| then AtEnd
      else
        Found(Record(Word(little, file[pos..pos + 4]) * 1000 + Word(little, file[pos + 4..pos + 8]) / 1000,
                     file[pos + HEADER..pos + HEADER + incl]),
              pos + HEADER + incl)
  }

  /** A record header is refused exactly when its unsigned length is zero or above one mebibyte. */
  lemma MalformedIff(file: seq<byte>, little: bool, pos: nat)
    ensures ScanAt(file, little, pos).Malformed?
      <==> pos + 16 <= |file| && !(0 < Word(little, file[pos + 8..pos + 12]) <= 1_048_576)
    ensures ScanAt(file, little, pos).Found? <==>
      && pos + 16 <= |file| && 0 < Word(little, file[pos + 8..pos + 12]) <= 1_048_576
      && pos + 16 + Word(little, file[pos + 8..pos + 12]) <= |file|
  {
  }

  /** All records from `pos` on, where the loop stops, and whether it stops with an exception. */
  datatype Parsed = Parsed(records: seq<Record>, stop: nat, malformed: bool)

  function Parse(file: seq<byte>, little: bool, pos: nat): (r: Parsed)
    requires pos <= |file|
    ensures pos <= r.stop <= |file|
    decreases |file| - pos
  {
    match ScanAt(file, little, pos)
    case AtEnd => Parsed([], pos, false)
    case Malformed => Parsed([], pos, true)
    case Found(record, next) =>
      var rest := Parse(file, little, next);
      rest.(records := [record] + rest.records)
  }

  /** What a longer file adds: the records of the shorter one come first, and parsing can resume
      where the shorter one stopped. */
  lemma {:induction false} ParseResumes(short: seq<byte>, long: seq<byte>, little: bool, pos: nat)
    requires short <= long && pos <= |short|
    ensures var first := Parse(short, little, pos);
      && (first.malformed ==> Parse(long, little, pos) == first)
      && (!first.malformed ==>
            var rest := Parse(long, little, first.stop);
            Parse(long, little, pos) == rest.(records := first.records + rest.records))
    decreases |short| - pos
  {
    ScanIsStable(short, long, little, pos);
    match ScanAt(short, little, pos) {
      case Found(record, next) =>
        ParseResumes(short, long, little, next);
        var first := Parse(short, little, next);
        if !first.malformed {
          Assoc([record], first.records, Parse(long, little, first.stop).records);
        }
      case AtEnd =>
        var rest := Parse(long, little, pos);
        assert [] + rest.records == rest.records;
      case Malformed =>
    }
  }

  lemma ScanIsStable(short: seq<byte>, long: seq<byte>, little: bool, pos: nat)
    requires short <= long && pos <= |short|
    ensures !ScanAt(short, little, pos).AtEnd? ==> ScanAt(long, little, pos) == ScanAt(short, little, pos)
  {
    if pos + HEADER <= |short| {
      forall i: nat, j: nat | i <= j <= |short| ensures long[i..j] == short[i..j] {}
    }
  }

  // ----- Reading a growing file ------------------------------------------------------------------------------

  datatype State = State(offset: nat, little: bool, table: Table)

  datatype Ending = Done | UnknownHeader | NotRawIp | BadLength

  /** The record loop from the current offset. An exception keeps the records but not the offset. */
  function Continue(pick: Pick, s: State, file: seq<byte>): (State, Ending)
    requires s.offset <= |file|
  {
    var parsed := Parse(file, s.little, s.offset);
    var t := s.(table := AddAll(pick, s.table, parsed.records));
    if parsed.malformed then (t, BadLength) else (t.(offset := parsed.stop), Done)
  }

  predicate IsLittle(file: seq<byte>)
    requires |file| >= GLOBAL
  {
    Word(true, file[..4]) == MAGIC
  }

  /** parseNewPackets. */
  function Next(pick: Pick, s: State, file: seq<byte>): (State, Ending) {
    if |file| < GLOBAL then (s, Done)
    else if s.offset == 0 || s.offset > |file| then
      var start := State(GLOBAL, s.little, EMPTY);
      if !IsLittle(file) && Word(false, file[..4]) != MAGIC then (start, UnknownHeader)
      else if Word(IsLittle(file), file[20..24]) != RAW_IP then (start.(little := IsLittle(file)), NotRawIp)
      else Continue(pick, start.(little := IsLittle(file)), file)
    else Continue(pick, s, file)
  }

  /** The header is there, and its magic number or its link type is none the reader knows. */
  predicate BadHeader(file: seq<byte>) {
    && |file| >= GLOBAL
    && ((!IsLittle(file) && Word(false, file[..4]) != MAGIC) || Word(IsLittle(file), file[20..24]) != RAW_IP)
  }

  /** The reader accepts the header, and no complete record header has an impossible length. */
  predicate WellFormed(file: seq<byte>) {
    |file| >= GLOBAL ==> !BadHeader(file) && !Parse(file, IsLittle(file), GLOBAL).malformed
  }

  /** A prefix of a well-formed capture is well-formed, with the same byte order. */
  lemma PrefixIsWellFormed(short: seq<byte>, long: seq<byte>)
    requires short <= long && WellFormed(long)
    ensures WellFormed(short)
    ensures |short| >= GLOBAL ==> IsLittle(short) == IsLittle(long)
  {
    if |short| >= GLOBAL {
      assert short[..4] == long[..4] && short[20..24] == long[20..24];
      ParseResumes(short, long, IsLittle(long), GLOBAL);
    }
  }

  /** Reading a prefix first changes nothing about the result. */
  lemma TwoReadsAreOne(pick: Pick, s: State, short: seq<byte>, long: seq<byte>)
    requires s.offset == 0 && short <= long && WellFormed(long)
    ensures Next(pick, Next(pick, s, short).0, long) == Next(pick, s, long)
  {
    PrefixIsWellFormed(short, long);
    if |short| >= GLOBAL {
      var little := IsLittle(long);
      assert short[..4] == long[..4] && short[20..24] == long[20..24];
      ParseResumes(short, long, little, GLOBAL);
      var first := Parse(short, little, GLOBAL);
      AddAllAppend(pick, EMPTY, first.records, Parse(long, little, first.stop).records);
    }
  }

  predicate Growing(files: seq<seq<byte>>) {
    forall i, j :: 0 <= i < j < |files| ==> files[i] <= files[j]
  }

  function Reads(pick: Pick, s: State, files: seq<seq<byte>>): State {
    if files == [] then s else Next(pick, Reads(pick, s, files[..|files| - 1]), files[|files| - 1]).0
  }

  /** Reading a growing well-formed capture in any number of instalments leaves exactly the state that
      reading its last instalment in one go leaves: every complete record is handled once, in order. */
  lemma {:induction false} IncrementalIsBatch(pick: Pick, s: State, files: seq<seq<byte>>)
    requires s.offset == 0 && files != [] && Growing(files) && WellFormed(files[|files| - 1])
    ensures Reads(pick, s, files) == Next(pick, s, files[|files| - 1]).0
  {
    var n := |files| - 1;
    if n == 0 {
      assert files[..0] == [];
    } else {
      PrefixIsWellFormed(files[n - 1], files[n]);
      IncrementalIsBatch(pick, s, files[..n]);
      TwoReadsAreOne(pick, s, files[n - 1], files[n]);
    }
  }

  /** A file with an impossible length in it has its records handed over again at every further look:
      looking again changes nothing exactly when the file is not malformed from where the reader
      stands, or no packet long enough to count comes before the malformed record. */
  lemma RereadIsHarmlessIff(pick: Pick, s: State, file: seq<byte>)
    requires 0 < s.offset <= |file|
    ensures var parsed := Parse(file, s.little, s.offset);
      var once := Next(pick, s, file).0;
      Next(pick, once, file).0 == once <==> (parsed.malformed ==> forall r :: r in parsed.records ==> !Counts(r))
  {
    var parsed := Parse(file, s.little, s.offset);
    var once := Next(pick, s, file).0;
    if parsed.malformed {
      NumberGrows(pick, once.table, parsed.records);
    } else {
      ParseResumes(file, file, s.little, s.offset);
      assert Parse(file, s.little, parsed.stop).records == [];
    }
  }

  lemma {:induction false} NumberGrows(pick: Pick, t: Table, rs: seq<Record>)
    ensures AddAll(pick, t, rs).number >= t.number
    ensures (forall r :: r in rs ==> !Counts(r)) ==> AddAll(pick, t, rs) == t
    ensures (exists r :: r in rs && Counts(r)) ==> AddAll(pick, t, rs).number > t.number
  {
    if rs != [] {
      NumberGrows(pick, t, rs[..|rs| - 1]);
      assert rs == rs[..|rs| - 1] + [rs[|rs| - 1]];
    }
  }

  predicate Complains(ending: Ending) {
    ending.UnknownHeader? || ending.NotRawIp?
  }

  /** A bad header is reported exactly when the reader has read nothing yet or the file has shrunk
      below what it read; any other look takes what stands behind the header for records. */
  lemma BadHeaderIsReportedIff(pick: Pick, s: State, file: seq<byte>)
    ensures Complains(Next(pick, s, file).1) <==> BadHeader(file) && (s.offset == 0 || s.offset > |file|)
    ensures Complains(Next(pick, s, file).1) ==>
      var once := Next(pick, s, file).0;
      once.table == EMPTY && once.offset == GLOBAL && Next(pick, once, file) == Continue(pick, once, file)
  {
  }

  /** How far a new reader has got in a growing file. */
  lemma {:induction false} OffsetOfReads(pick: Pick, s: State, files: seq<seq<byte>>)
    requires s.offset == 0 && Growing(files)
    ensures var offset := Reads(pick, s, files).offset;
      if forall j :: 0 <= j < |files| ==> |files[j]| < GLOBAL then offset == 0
      else GLOBAL <= offset <= |files[|files| - 1]|
  {
    if files != [] {
      var n := |files| - 1;
      OffsetOfReads(pick, s, files[..n]);
      if n > 0 {
        assert files[n - 1] <= files[n];
      }
    }
  }

  /** While a capture with a bad header grows, exactly the first look at a whole header reports it. */
  lemma BadHeaderIsReportedOnce(pick: Pick, s: State, files: seq<seq<byte>>, i: nat)
    requires s.offset == 0 && Growing(files) && i < |files|
    ensures Complains(Next(pick, Reads(pick, s, files[..i]), files[i]).1)
      <==> BadHeader(files[i]) && forall j :: 0 <= j < i ==> |files[j]| < GLOBAL
  {
    OffsetOfReads(pick, s, files[..i]);
    BadHeaderIsReportedIff(pick, Reads(pick, s, files[..i]), files[i]);
    if i > 0 {
      assert files[i - 1] <= files[i];
    }
  }

  // ----- Captures as they are written ----------------------------------------------------------------------

  /** One captured packet with its timestamp; `original` is the length before truncation. */
  datatype Captured = Captured(seconds: nat, micros: nat, original: nat, data: seq<byte>)

  predicate Writable(c: Captured) {
    && c.seconds < 0x1_0000_0000 && c.micros < 0x1_0000_0000 && c.original < 0x1_0000_0000
    && 0 < |c.data| <= MAX_PACKET
  }

  function PutWord(little: bool, n: nat): (r: seq<byte>)
    ensures |r| == 4
  {
    if little then Reverse4(PutUint32(n)) else PutUint32(n)
  }

  function RecordBytes(little: bool, c: Captured): (r: seq<byte>)
    ensures |r| == HEADER + |c.data|
  {
    PutWord(little, c.seconds) + PutWord(little, c.micros)
    + PutWord(little, |c.data|) + PutWord(little, c.original) + c.data
  }

  function Written(little: bool, cs: seq<Captured>): seq<byte> {
    if cs == [] then [] else RecordBytes(little, cs[0]) + Written(little, cs[1..])
  }

  /** Timestamps are kept in milliseconds. */
  function RecordOf(c: Captured): Record {
    Record(c.seconds * 1000 + c.micros / 1000, c.data)
  }

  function RecordsOf(cs: seq<Captured>): seq<Record> {
    if cs == [] then [] else [RecordOf(cs[0])] + RecordsOf(cs[1..])
  }

  lemma WordOfPut(little: bool, n: nat)
    requires n < 0x1_0000_0000
    ensures Word(little, PutWord(little, n)) == n
  {
    Uint32OfPut(n);
    assert Reverse4(Reverse4(PutUint32(n))) == PutUint32(n);
  }

  lemma RecordFields(little: bool, c: Captured)
    ensures var r := RecordBytes(little, c);
      && r[..4] == PutWord(little, c.seconds) && r[4..8] == PutWord(little, c.micros)
      && r[8..12] == PutWord(little, |c.data|) && r[HEADER..] == c.data
  {
  }

  lemma ScanOfWritten(before: seq<byte>, little: bool, c: Captured, after: seq<byte>)
    requires Writable(c)
    ensures ScanAt(before + RecordBytes(little, c) + after, little, |before|)
      == Found(RecordOf(c), |before| + HEADER + |c.data|)
  {
    var r, n := RecordBytes(little, c), |before|;
    var file := before + r + after;
    RecordFields(little, c);
    WordOfPut(little, c.seconds);
    WordOfPut(little, c.micros);
    WordOfPut(little, |c.data|);
    forall i: nat, j: nat | i <= j <= |r| ensures file[n + i..n + j] == r[i..j] {}
    assert file[n..n + 4] == r[..4] && file[n + 4..n + 8] == r[4..8] && file[n + 8..n + 12] == r[8..12];
    assert file[n + HEADER..n + |r|] == r[HEADER..];
  }

  lemma ParseOne(file: seq<byte>, little: bool, pos: nat, record: Record, next: nat)
    requires pos <= |file| && ScanAt(file, little, pos) == Found(record, next)
    ensures var rest := Parse(file, little, next);
      Parse(file, little, pos) == rest.(records := [record] + rest.records)
  {
  }

  /** Parsing what was written gives back the records, in either byte order. */
  lemma {:induction false} ParseOfWritten(before: seq<byte>, little: bool, cs: seq<Captured>, file: seq<byte>)
    requires (forall c :: c in cs ==> Writable(c)) && file == before + Written(little, cs)
    ensures Parse(file, little, |before|) == Parsed(RecordsOf(cs), |file|, false)
    decreases |cs|
  {
    if cs == [] {
      assert ScanAt(file, little, |before|) == AtEnd;
    } else {
      var r, rest := RecordBytes(little, cs[0]), Written(little, cs[1..]);
      Assoc(before, r, rest);
      ScanOfWritten(before, little, cs[0], rest);
      ParseOne(file, little, |before|, RecordOf(cs[0]), |before + r|);
      ParseOfWritten(before + r, little, cs[1..], file);
    }
  }

  /** The magic, sixteen bytes the reader ignores, and the link type of raw IP. */
  function FileHeader(little: bool, ignored: seq<byte>): seq<byte>
    requires |ignored| == 16
  {
    PutWord(little, MAGIC) + ignored + PutWord(little, RAW_IP)
  }

  /** A RAW-IP capture file. */
  function CaptureFile(little: bool, ignored: seq<byte>, cs: seq<Captured>): seq<byte>
    requires |ignored| == 16
  {
    FileHeader(little, ignored) + Written(little, cs)
  }

  lemma MagicIsNoPalindrome()
    ensures Word(true, PutWord(false, MAGIC)) != MAGIC
  {
    var s := PutUint32(MAGIC);
    assert MAGIC / 256 == 0xa1b2c3 && MAGIC / 256 / 256 == 0xa1b2 && MAGIC / 256 / 256 / 256 == 0xa1;
    assert s == [0xa1, 0xb2, 0xc3, 0xd4];
    PutOfGetBytes(Reverse4(s));
  }

  lemma HeaderIsGood(little: bool, ignored: seq<byte>, rest: seq<byte>)
    requires |ignored| == 16
    ensures var file := FileHeader(little, ignored) + rest;
      |file| >= GLOBAL && !BadHeader(file) && IsLittle(file) == little
  {
    var file := FileHeader(little, ignored) + rest;
    WordOfPut(little, MAGIC);
    WordOfPut(little, RAW_IP);
    assert file[..4] == PutWord(little, MAGIC) && file[20..24] == PutWord(little, RAW_IP);
    if !little {
      MagicIsNoPalindrome();
    }
  }

  lemma CaptureIsWellFormed(little: bool, ignored: seq<byte>, cs: seq<Captured>)
    requires |ignored| == 16 && forall c :: c in cs ==> Writable(c)
    ensures var file := CaptureFile(little, ignored, cs);
      && WellFormed(file) && |file| >= GLOBAL && IsLittle(file) == little
      && Parse(file, little, GLOBAL).records == RecordsOf(cs)
  {
    var file := CaptureFile(little, ignored, cs);
    HeaderIsGood(little, ignored, Written(little, cs));
    ParseOfWritten(FileHeader(little, ignored), little, cs, file);
  }

  /** The header of a record without bytes. */
  const NO_LENGTH: seq<byte> := [0, 0, 0, 0, 0, 0, 0, 0, 0, 0, 0, 0, 0, 0, 0, 0]

  lemma NoLengthIsMalformed(before: seq<byte>, little: bool)
    ensures Parse(before + NO_LENGTH, little, |before|) == Parsed([], |before|, true)
  {
    var file := before + NO_LENGTH;
    ZeroWord(little);
    assert file[|before| + 8..|before| + 12] == NO_LENGTH[8..12] == [0, 0, 0, 0];
    MalformedIff(file, little, |before|);
  }

  lemma ZeroWord(little: bool)
    ensures Word(little, [0, 0, 0, 0]) == 0
  {
    Uint32OfPut(0);
    assert PutUint32(0) == [0, 0, 0, 0] == Reverse4([0, 0, 0, 0]);
  }

  /** One packet in front of an impossible length: the first look counts it, and the second counts it
      again. */
  lemma MalformedIsRecounted(pick: Pick, s: State, little: bool, ignored: seq<byte>, c: Captured)
    requires s.offset == 0 && |ignored| == 16 && Writable(c) && |c.data| >= 20
    ensures var file := FileHeader(little, ignored) + RecordBytes(little, c) + NO_LENGTH;
      var (once, first) := Next(pick, s, file);
      var (twice, second) := Next(pick, once, file);
      first == second == BadLength && once.table.number == 1 && twice.table.number == 2
  {
    var header, record := FileHeader(little, ignored), RecordBytes(little, c);
    var file := header + record + NO_LENGTH;
    HeaderIsGood(little, ignored, record + NO_LENGTH);
    Assoc(header, record, NO_LENGTH);
    ScanOfWritten(header, little, c, NO_LENGTH);
    ParseOne(file, little, GLOBAL, RecordOf(c), |header + record|);
    NoLengthIsMalformed(header + record, little);
    AddOne(pick, EMPTY, RecordOf(c));
    AddOne(pick, AddAll(pick, EMPTY, [RecordOf(c)]), RecordOf(c));
  }

  lemma AddOne(pick: Pick, t: Table, r: Record)
    requires Counts(r)
    ensures AddAll(pick, t, [r]).number == t.number + 1
  {
    assert [r][..0] == [];
  }

  /** However a written capture arrives, each of its packets reaches the tables exactly once, in order:
      the packet list is the last 200 of those that count. */
  lemma CaptureReachesTablesOnce(pick: Pick, s: State, little: bool, ignored: seq<byte>, cs: seq<Captured>,
                                 files: seq<seq<byte>>)
    requires |ignored| == 16 && (forall c :: c in cs ==> Writable(c)) && s.offset == 0
    requires files != [] && Growing(files) && files[|files| - 1] == CaptureFile(little, ignored, cs)
    ensures var t := Reads(pick, s, files).table;
      && t == AddAll(pick, EMPTY, RecordsOf(cs))
      && t.number == |Numbered(RecordsOf(cs))| && t.packets == Last(Numbered(RecordsOf(cs)))
  {
    CaptureIsWellFormed(little, ignored, cs);
    IncrementalIsBatch(pick, s, files);
    ListIsLastPackets(pick, RecordsOf(cs));
  }

  // ----- The activity's fields ---------------------------------------------------------------------------------

  class Inspector {
    const pick: Pick
    var parsedOffset: nat
    var pcapLittleEndian: bool
    var packetNumber: nat
    var packets: seq<Packet>
    var flows: Flows

    ghost function Tables(): Table
      reads this
    {
      Table(packetNumber, packets, flows)
    }

    ghost function View(): State
      reads this
    {
      State(parsedOffset, pcapLittleEndian, Tables())
    }

    constructor (pick: Pick)
      ensures this.pick == pick && View() == State(0, true, EMPTY)
    {
      this.pick := pick;
      parsedOffset, pcapLittleEndian := 0, true;
      packetNumber, packets, flows := 0, [], map[];
    }

    method ParseNewPackets(file: seq<byte>) returns (ending: Ending)
      modifies this
      ensures (View(), ending) == Next(pick, old(View()), file)
    {
      var length := |file|;
      if length < GLOBAL {
        return Done;
      }
      if parsedOffset == 0 || parsedOffset > length {
        flows := map[];
        packets := [];
        packetNumber := 0;
        parsedOffset := GLOBAL;
        if Word(true, file[..4]) == MAGIC {
          pcapLittleEndian := true;
        } else if Word(false, file[..4]) == MAGIC {
          pcapLittleEndian := false;
        } else {
          return UnknownHeader;
        }
        if Word(pcapLittleEndian, file[20..24]) != RAW_IP {
          return NotRawIp;
        }
      }
      ending := ParseRecords(file);
    }

    /** The record loop; a normal end moves the offset past the last complete record. */
    method ParseRecords(file: seq<byte>) returns (ending: Ending)
      requires parsedOffset <= |file|
      modifies this
      ensures (View(), ending) == Continue(pick, old(View()), file)
    {
      var pointer := parsedOffset;
      ghost var start, done: seq<Record> := View(), [];
      ghost var all := Parse(file, pcapLittleEndian, parsedOffset);
      while pointer + HEADER <= |file|
        invariant parsedOffset <= pointer <= |file|
        invariant parsedOffset == start.offset && pcapLittleEndian == start.little
        invariant Tables() == AddAll(pick, start.table, done)
        invariant Resumed(all, done, Parse(file, start.little, pointer))
        decreases |file| - pointer
      {
        var scan := ReadRecord(file, pointer);
        if scan == Malformed {
          ResumedEnd(all, done, Parse(file, start.little, pointer));
          return BadLength;
        }
        if scan == AtEnd {
          break;
        }
        ParsePacket(scan.record.data, scan.record.when);
        AddAllSnoc(pick, start.table, done, scan.record);
        ParseOne(file, start.little, pointer, scan.record, scan.next);
        ResumedStep(all, done, scan.record, Parse(file, start.little, scan.next));
        done := done + [scan.record];
        pointer := scan.next;
      }
      ResumedEnd(all, done, Parse(file, start.little, pointer));
      parsedOffset := pointer;
      ending := Done;
    }

    method ReadRecord(file: seq<byte>, pointer: nat) returns (scan: Scan)
      requires pointer + HEADER <= |file|
      ensures scan == ScanAt(file, pcapLittleEndian, pointer)
    {
      var header := file[pointer..pointer + HEADER];
      HeaderFields(file, pointer);
      var seconds, micros := Word(pcapLittleEndian, header[..4]), Word(pcapLittleEndian, header[4..8]);
      var incl := Signed(Word(pcapLittleEndian, header[8..12]));
      if incl <= 0 || incl > MAX_PACKET {
        return Malformed;
      }
      if pointer + HEADER + incl > |file| {
        return AtEnd;
      }
      var packet := file[pointer + HEADER..pointer + HEADER + incl];
      scan := Found(Record(seconds * 1000 + micros / 1000, packet), pointer + HEADER + incl);
    }

    method ParsePacket(packet: seq<byte>, when: int)
      modifies this`packetNumber, this`packets, this`flows
      ensures Tables() == Add(pick, old(Tables()), Record(when, packet))
    {
      if |packet| < 20 {
        return;
      }
      packetNumber := packetNumber + 1;
      var entry := Packet(packetNumber, when, |packet|, if |packet| <= 2048 then packet else packet[..2048]);
      packets := packets + [entry];
      if |packets| > SHOWN {
        packets := packets[1..];
      }
      if packet[0] / 16 == 4 {
        ParseIPv4(packet, when);
      } else if packet[0] / 16 == 6 {
        ParseIPv6(packet, when);
      }
      AddedUp(pick, old(Tables()), Record(when, packet), Tables());
    }

    ghost predicate FlowsTouched(before: Flows, packet: seq<byte>, when: int)
      requires |packet| >= 20
      reads this
    {
      var key := FlowOf(packet);
      flows == if key.Some? then Touch(pick, before, key.value, when, |packet|) else before
    }

    method ParseIPv4(p: seq<byte>, when: int)
      requires |p| >= 20 && p[0] / 16 == 4
      modifies this`flows
      ensures FlowsTouched(old(flows), p, when)
    {
      var ihl := (p[0] % 16) * 4;
      if ihl < 20 || |p| < ihl + 4 {
        return;
      }
      if Uint16(p[6..8]) % 0x2000 != 0 {
        return;
      }
      HandleTransport(p, Transport(ihl, p[9]), HostOf(p[12..16]), HostOf(p[16..20]), when);
    }

    method ParseIPv6(p: seq<byte>, when: int)
      requires |p| >= 20 && p[0] / 16 == 6
      modifies this`flows
      ensures FlowsTouched(old(flows), p, when)
    {
      if |p| < 44 {
        return;
      }
      var t := IPv6Transport(p);
      HandleTransport(p, t, HostOf(p[8..24]), HostOf(p[24..40]), when);
    }

    static method IPv6Transport(p: seq<byte>) returns (t: Transport)
      requires |p| >= 7
      ensures t == Skip(p, 40, p[6], 8)
    {
      var offset: nat, protocol: int := 40, p[6];
      for count := 0 to 8
        invariant Skip(p, 40, p[6], 8) == Skip(p, offset, protocol, 8 - count)
      {
        if protocol != 0 && protocol != 43 && protocol != 60 && protocol != 51 && protocol != 44 {
          return Transport(offset, protocol);
        }
        if offset + 8 > |p| {
          return Transport(|p|, -1);
        }
        if LaterFragment(p, protocol, offset) {
          return Transport(|p|, -1);
        }
        var size := HeaderSize(p, protocol, offset);
        protocol := p[offset];
        offset := offset + size;
        if offset > |p| {
          return Transport(|p|, -1);
        }
      }
      t := Transport(|p|, -1);
    }

    method HandleTransport(p: seq<byte>, t: Transport, src: Host, dst: Host, when: int)
      modifies this`flows
      ensures var key := KeyOf(p, t, src, dst);
        flows == if key.Some? then Touch(pick, old(flows), key.value, when, |p|) else old(flows)
    {
      if t.protocol != 6 && t.protocol != 17 {
        return;
      }
      if |p| < t.offset + (if t.protocol == 6 then 20 else 8) {
        return;
      }
      var srcPort, dstPort := Uint16(p[t.offset..t.offset + 2]), Uint16(p[t.offset + 2..t.offset + 4]);
      var outgoing := IsLocalVpnAddress(src);
      var local, remote := dst, src;
      var localPort, remotePort := dstPort, srcPort;
      if outgoing {
        local, remote := src, dst;
        localPort, remotePort := srcPort, dstPort;
      }
      var key := FlowKey(t.protocol == 6, local, localPort, remote, remotePort);
      if key !in flows {
        if |flows| >= MAX_FLOWS {
          flows := flows - {pick(flows)};
        }
        flows := flows[key := Flow(0, 0, when, when)];
      }
      var flow := flows[key];
      flows := flows[key := Flow(flow.packets + 1, flow.bytes + |p|, flow.firstSeen, when)];
    }
  }

  lemma AddedUp(pick: Pick, before: Table, r: Record, after: Table)
    requires Counts(r) && after.number == before.number + 1
    requires after.packets == DropOne(before.packets + [Entry(r, after.number)])
    requires var key := FlowOf(r.data);
      after.flows == if key.Some? then Touch(pick, before.flows, key.value, r.when, |r.data|) else before.flows
    ensures after == Add(pick, before, r)
  {
  }

  lemma HeaderFields(file: seq<byte>, pos: nat)
    requires pos + HEADER <= |file|
    ensures var header := file[pos..pos + HEADER];
      && header[..4] == file[pos..pos + 4] && header[4..8] == file[pos + 4..pos + 8]
      && header[8..12] == file[pos + 8..pos + 12]
  {
    var header := file[pos..pos + HEADER];
    assert forall k :: 0 <= k < HEADER ==> header[k] == file[pos + k];
    assert forall k :: 0 <= k < 4 ==> header[4..8][k] == file[pos + 4..pos + 8][k];
    assert forall k :: 0 <= k < 4 ==> header[8..12][k] == file[pos + 8..pos + 12][k];
  }

  /** What is left to parse, after the records done, completes the whole. */
  predicate Resumed(all: Parsed, done: seq<Record>, rest: Parsed) {
    all == rest.(records := done + rest.records)
  }

  lemma ResumedStep(all: Parsed, done: seq<Record>, record: Record, after: Parsed)
    requires Resumed(all, done, after.(records := [record] + after.records))
    ensures Resumed(all, done + [record], after)
  {
    Assoc(done, [record], after.records);
  }

  lemma ResumedEnd(all: Parsed, done: seq<Record>, rest: Parsed)
    requires Resumed(all, done, rest) && rest.records == []
    ensures all == rest.(records := done)
  {
  }

  lemma AddAllSnoc(pick: Pick, t: Table, rs: seq<Record>, r: Record)
    ensures AddAll(pick, t, rs + [r]) == Add(pick, AddAll(pick, t, rs), r)
  {
    assert (rs + [r])[..|rs|] == rs;
  }

  // ----- Such a pick exists ------------------------------------------------------------------------------------

  ghost function OldestFlow(flows: Flows): (key: FlowKey)
    ensures flows != map[] ==> key in flows && forall k :: k in flows ==> flows[key].lastSeen <= flows[k].lastSeen
    decreases |flows|
  {
    if flows == map[] then FlowKey(false, [], 0, [], 0)
    else
      var k :| k in flows;
      var rest := flows - {k};
      assert rest.Keys == flows.Keys - {k};
      if rest == map[] then
        assert flows.Keys == {k} + rest.Keys;
        k
      else
        var best := OldestFlow(rest);
        if flows[best].lastSeen <= flows[k].lastSeen then best else k
  }

  lemma SuchPicksExist()
    ensures PicksOldest(OldestFlow)
  {
  }
}
