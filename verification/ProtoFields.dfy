/** The report messages as lists of fields with the numbers of report.proto, encoded by the rules of Protocol Buffers
    ("Encoding": Message Structure, Base 128 Varints): a second description of the generated serializers. */
module ProtoFields {
  import opened Bits
  import opened Wire
  import opened Report
  import opened ReportProofs

  /** A field value with its wire type. */
  datatype WireValue = VarintValue(v: nat) | Fixed64Value(w: u64) | BytesValue(b: seq<byte>) | Fixed32Value(f: u32)

  function WireType(v: WireValue): nat {
    match v
    case VarintValue(_) => 0
    case Fixed64Value(_) => 1
    case BytesValue(_) => 2
    case Fixed32Value(_) => 5
  }

  function Payload(v: WireValue): seq<byte> {
    match v
    case VarintValue(n) => Varint(n)
    case Fixed64Value(w) => Fixed(8, w)
    case BytesValue(b) => Varint(|b|) + b
    case Fixed32Value(f) => Fixed(4, f)
  }

  /** Key and value of one field. */
  function Record(number: nat, v: WireValue): seq<byte> {
    Varint(8 * number + WireType(v)) + Payload(v)
  }

  function Encode(fields: seq<(nat, WireValue)>): seq<byte> {
    if fields == [] then [] else Record(fields[0].0, fields[0].1) + Encode(fields[1..])
  }

  //////////////////////////////////////////////////////////////////////
  // The primitives
  //////////////////////////////////////////////////////////////////////

  /** The number that seven bits per byte stand for, the least significant first. */
  function Groups(b: seq<byte>): nat {
    if b == [] then 0 else b[0] % 128 + 128 * Groups(b[1..])
  }

  /** A varint is its seven-bit groups, with the top bit set in all bytes but the last. */
  lemma {:induction false} VarintGroups(v: nat)
    ensures var b := Varint(v);
      && Groups(b) == v && b[|b| - 1] < 128 && forall i :: 0 <= i < |b| - 1 ==> b[i] >= 128
  {
    if v < 128 {
      assert Varint(v) == [v] && [v][1..] == [];
    } else {
      VarintGroups(v / 128);
      assert Varint(v) == [128 + v % 128] + Varint(v / 128);
      GroupsFrom(128 + v % 128, Varint(v / 128));
    }
    hide Varint;
    hide Groups;
  }

  lemma GroupsFrom(first: byte, tail: seq<byte>)
    requires first >= 128 && tail != [] && forall i :: 0 <= i < |tail| - 1 ==> tail[i] >= 128
    ensures var b := [first] + tail;
      Groups(b) == first - 128 + 128 * Groups(tail) && forall i :: 0 <= i < |b| - 1 ==> b[i] >= 128
  {
    assert ([first] + tail)[1..] == tail;
  }

  /** Byte i of a fixed-width number is its i-th byte from the least significant end. */
  lemma FixedLittleEndian(n: nat, v: nat, i: nat)
    requires i < n
    ensures Fixed(n, v)[i] == v / Pow256(i) % 256
  {
    BigEndianByte(n, v, i);
  }

  lemma {:induction false} BigEndianByte(n: nat, v: nat, i: nat)
    requires i < n
    ensures BytesOf(n, v)[n - 1 - i] == v / Pow256(i) % 256
  {
    if i > 0 {
      BigEndianByte(n - 1, v / 256, i - 1);
      DivTwice(v, Pow256(i - 1));
    }
  }

  lemma DivTwice(v: nat, m: nat)
    requires m > 0
    ensures v / 256 / m == v / (256 * m)
  {
    var q, r := v / 256 / m, v / 256 % m;
    assert v == 256 * (q * m + r) + v % 256;
    assert 256 * (q * m + r) == q * (256 * m) + 256 * r;
    DivModUnique(q, 256 * m, 256 * r + v % 256);
  }

  //////////////////////////////////////////////////////////////////////
  // The messages
  //////////////////////////////////////////////////////////////////////

  /** A scalar is left out when it is zero. */
  function Scalar(number: nat, v: nat): seq<(nat, WireValue)> {
    if v == 0 then [] else [(number, VarintValue(v))]
  }

  function IPv6Fields(m: IPv6Address): seq<(nat, WireValue)> {
    (if m.high == 0 then [] else [(1, Fixed64Value(m.high))]) + (if m.low == 0 then [] else [(2, Fixed64Value(m.low))])
  }

  /** The members of a oneof are written whenever they are set. */
  function IpFields(number4: nat, number6: nat, ip: Ip): seq<(nat, WireValue)> {
    match ip
    case NotSet => []
    case V4(a) => [(number4, Fixed32Value(a))]
    case V6(a) => [(number6, BytesValue(Encode(IPv6Fields(a))))]
  }

  function FlowKeyFields(m: FlowKey): seq<(nat, WireValue)> {
    Scalar(1, m.dst_as) + (Scalar(2, m.src_as) + (Scalar(3, m.flow_id) + (IpFields(4, 5, m.dst_ip)
    + (IpFields(6, 7, m.src_ip) + (Scalar(8, m.dst_port) + (Scalar(9, m.src_port)
    + Scalar(10, if m.protocol < 0 then m.protocol + 0x1_0000_0000_0000_0000 else m.protocol)))))))
  }

  /** A map is a repeated message of key and value. */
  function EntryFields(m: map<u32, seq<byte>>, order: seq<u32>): seq<(nat, WireValue)>
    requires forall k :: k in order ==> k in m
  {
    if order == [] then []
    else [(3, BytesValue(Encode([(1, VarintValue(order[0])), (2, BytesValue(m[order[0]]))])))]
         + EntryFields(m, order[1..])
  }

  function HopFields(m: Hop, order: seq<u32>): seq<(nat, WireValue)>
    requires Enumerates(order, m.metadata.Keys)
  {
    Scalar(1, m.asn) + (Scalar(2, m.node_id) + EntryFields(m.metadata, order))
  }

  function RepeatedHops(hops: seq<Hop>, orders: seq<seq<u32>>): seq<(nat, WireValue)>
    requires Orders(hops, orders)
  {
    if hops == [] then []
    else [(1, BytesValue(Encode(HopFields(hops[0], orders[0]))))] + RepeatedHops(hops[1..], orders[1..])
  }

  function ReportFields(m: Report, orders: seq<seq<u32>>): seq<(nat, WireValue)>
    requires Orders(m.hops, orders)
  {
    RepeatedHops(m.hops, orders)
    + (Scalar(2, if m.packet_type < 0 then m.packet_type + 0x1_0000_0000_0000_0000 else m.packet_type)
    + (if m.truncated_packet == [] then [] else [(3, BytesValue(m.truncated_packet))]))
  }

  //////////////////////////////////////////////////////////////////////
  // The serializers write these fields
  //////////////////////////////////////////////////////////////////////

  lemma {:induction false} EncodeConcat(a: seq<(nat, WireValue)>, b: seq<(nat, WireValue)>)
    ensures Encode(a + b) == Encode(a) + Encode(b)
  {
    hide Record;
    if a == [] {
      assert a + b == b;
    } else {
      assert (a + b)[1..] == a[1..] + b;
      EncodeConcat(a[1..], b);
    }
  }

  lemma EncodeOne(number: nat, v: WireValue)
    requires number < 16
    ensures Encode([(number, v)]) == [8 * number + WireType(v)] + Payload(v)
  {
    hide Payload;
    assert [(number, v)][1..] == [];
  }

  lemma ScalarWritten(number: nat, v: nat)
    requires number < 16
    ensures VarintField(8 * number, v) == Encode(Scalar(number, v))
  {
    if v != 0 {
      EncodeOne(number, VarintValue(v));
    }
  }

  lemma BytesWritten(number: nat, b: seq<byte>)
    requires number < 16
    ensures BytesField(8 * number + 2, b) == Encode([(number, BytesValue(b))])
  {
    EncodeOne(number, BytesValue(b));
  }

  lemma IPv6Written(m: IPv6Address)
    ensures SerIPv6(m) == Encode(IPv6Fields(m))
  {
    hide Fixed;
    EncodeOne(1, Fixed64Value(m.high));
    EncodeOne(2, Fixed64Value(m.low));
    EncodeConcat(if m.high == 0 then [] else [(1, Fixed64Value(m.high))],
                 if m.low == 0 then [] else [(2, Fixed64Value(m.low))]);
  }

  lemma IpWritten(number4: nat, number6: nat, ip: Ip)
    requires number4 < 16 && number6 < 16
    ensures SerIp(8 * number4 + 5, 8 * number6 + 2, ip) == Encode(IpFields(number4, number6, ip))
  {
    hide Fixed;
    match ip
    case NotSet =>
    case V4(a) => EncodeOne(number4, Fixed32Value(a));
    case V6(a) =>
      IPv6Written(a);
      BytesWritten(number6, SerIPv6(a));
  }

  /** A flow key is written with the field numbers and types of report.proto, in their order. */
  lemma FlowKeyWritten(m: FlowKey)
    ensures SerFlowKey(m) == Encode(FlowKeyFields(m))
  {
    hide VarintField;
    hide Scalar;
    hide SerIp;
    hide IpFields;
    hide Encode;
    ScalarWritten(1, m.dst_as);
    ScalarWritten(2, m.src_as);
    ScalarWritten(3, m.flow_id);
    IpWritten(4, 5, m.dst_ip);
    IpWritten(6, 7, m.src_ip);
    ScalarWritten(8, m.dst_port);
    ScalarWritten(9, m.src_port);
    ScalarWritten(10, EnumBits(m.protocol));
    var h := Scalar(10, EnumBits(m.protocol));
    var g := Scalar(9, m.src_port) + h;
    var f := Scalar(8, m.dst_port) + g;
    var e := IpFields(6, 7, m.src_ip) + f;
    var d := IpFields(4, 5, m.dst_ip) + e;
    var c := Scalar(3, m.flow_id) + d;
    EncodeConcat(Scalar(9, m.src_port), h);
    EncodeConcat(Scalar(8, m.dst_port), g);
    EncodeConcat(IpFields(6, 7, m.src_ip), f);
    EncodeConcat(IpFields(4, 5, m.dst_ip), e);
    EncodeConcat(Scalar(3, m.flow_id), d);
    EncodeConcat(Scalar(2, m.src_as), c);
    EncodeConcat(Scalar(1, m.dst_as), Scalar(2, m.src_as) + c);
  }

  lemma EntryWritten(key: u32, value: seq<byte>)
    ensures SerEntry(key, value) == Encode([(1, VarintValue(key)), (2, BytesValue(value))])
  {
    hide Varint;
    hide Record;
    var a, b := [(1, VarintValue(key))], [(2, BytesValue(value))];
    assert a + b == [(1, VarintValue(key)), (2, BytesValue(value))];
    EncodeConcat(a, b);
    EncodeOne(1, VarintValue(key));
    BytesWritten(2, value);
    hide Encode;
  }

  lemma {:induction false} EntriesWritten(m: map<u32, seq<byte>>, order: seq<u32>)
    requires forall k :: k in order ==> k in m
    ensures SerEntries(m, order) == Encode(EntryFields(m, order))
  {
    hide BytesField;
    hide SerEntry;
    if order != [] {
      EntryWritten(order[0], m[order[0]]);
      BytesWritten(3, SerEntry(order[0], m[order[0]]));
      EntriesWritten(m, order[1..]);
      EncodeConcat([(3, BytesValue(SerEntry(order[0], m[order[0]])))], EntryFields(m, order[1..]));
      hide Encode;
    }
  }

  /** So is a hop, with its map entries in any order. */
  lemma HopWritten(m: Hop, order: seq<u32>)
    requires Enumerates(order, m.metadata.Keys)
    ensures SerHop(m, order) == Encode(HopFields(m, order))
  {
    hide VarintField;
    hide Scalar;
    hide SerEntries;
    hide EntryFields;
    hide Encode;
    ScalarWritten(1, m.asn);
    ScalarWritten(2, m.node_id);
    EntriesWritten(m.metadata, order);
    EncodeConcat(Scalar(2, m.node_id), EntryFields(m.metadata, order));
    EncodeConcat(Scalar(1, m.asn), Scalar(2, m.node_id) + EntryFields(m.metadata, order));
  }

  lemma {:induction false} HopsWritten(hops: seq<Hop>, orders: seq<seq<u32>>)
    requires Orders(hops, orders)
    ensures SerHops(hops, orders) == Encode(RepeatedHops(hops, orders))
    decreases |hops|
  {
    hide BytesField;
    hide SerHop;
    hide HopFields;
    hide Enumerates;
    if hops != [] {
      HopWritten(hops[0], orders[0]);
      BytesWritten(1, SerHop(hops[0], orders[0]));
      HopsWritten(hops[1..], orders[1..]);
      EncodeConcat([(1, BytesValue(SerHop(hops[0], orders[0])))], RepeatedHops(hops[1..], orders[1..]));
      hide Encode;
    }
  }

  /** And so is a report. */
  lemma ReportWritten(m: Report, orders: seq<seq<u32>>)
    requires Orders(m.hops, orders)
    ensures SerReport(m, orders) == Encode(ReportFields(m, orders))
  {
    hide VarintField;
    hide BytesField;
    hide Scalar;
    hide SerHops;
    hide RepeatedHops;
    HopsWritten(m.hops, orders);
    ScalarWritten(2, EnumBits(m.packet_type));
    BytesWritten(3, m.truncated_packet);
    var a := Scalar(2, EnumBits(m.packet_type));
    var b := if m.truncated_packet == [] then [] else [(3, BytesValue(m.truncated_packet))];
    EncodeConcat(a, b);
    EncodeConcat(RepeatedHops(m.hops, orders), a + b);
    assert Encode([]) == [];
    hide Encode;
  }

  //////////////////////////////////////////////////////////////////////
  // What parsing more of a message does to one that is there
  //////////////////////////////////////////////////////////////////////

  /** A later scalar wins unless it was left out, and map entries are replaced key by key. */
  lemma LaterHopWins(m: Hop, b: Hop, order: seq<u32>)
    requires Enumerates(order, b.metadata.Keys) && |SerHop(b, order)| <= MAX_SIZE
    ensures var r := ParseHop(m, SerHop(b, order));
      && r.Some?
      && r.value.asn == (if b.asn != 0 then b.asn else m.asn)
      && r.value.node_id == (if b.node_id != 0 then b.node_id else m.node_id)
      && (forall k :: k in r.value.metadata <==> k in b.metadata || k in m.metadata)
      && (forall k :: k in r.value.metadata ==>
            r.value.metadata[k] == if k in b.metadata then b.metadata[k] else m.metadata[k])
  {
    hide SerHop;
    ParseSerHop(m, b, order, []);
    assert SerHop(b, order) + [] == SerHop(b, order);
  }

  /** Later hops are appended; the packet type and the packet are replaced unless they were left out. */
  lemma LaterReportWins(m: Report, b: Report, orders: seq<seq<u32>>)
    requires Orders(b.hops, orders) && |SerReport(b, orders)| <= MAX_SIZE
    ensures var r := ParseReport(m, SerReport(b, orders));
      && r.Some? && |r.value.hops| == |m.hops| + |b.hops|
      && (forall i :: 0 <= i < |r.value.hops| ==>
            r.value.hops[i] == if i < |m.hops| then m.hops[i] else b.hops[i - |m.hops|])
      && r.value.packet_type == (if b.packet_type != 0 then b.packet_type else m.packet_type)
      && r.value.truncated_packet
         == (if b.truncated_packet != [] then b.truncated_packet else m.truncated_packet)
  {
    hide SerReport;
    ParseSerReport(m, b, orders, []);
    assert SerReport(b, orders) + [] == SerReport(b, orders);
  }

  /** A later member of a oneof replaces one of the other case; of the same case, only an IPv6 address has parts that
      stay. */
  lemma LaterFlowKeyWins(m: FlowKey, b: FlowKey)
    ensures var r := ParseFlowKey(m, SerFlowKey(b));
      && r.Some?
      && r.value.flow_id == (if b.flow_id != 0 then b.flow_id else m.flow_id)
      && r.value.dst_as == (if b.dst_as != 0 then b.dst_as else m.dst_as)
      && r.value.src_as == (if b.src_as != 0 then b.src_as else m.src_as)
      && r.value.dst_port == (if b.dst_port != 0 then b.dst_port else m.dst_port)
      && r.value.src_port == (if b.src_port != 0 then b.src_port else m.src_port)
      && r.value.protocol == (if b.protocol != 0 then b.protocol else m.protocol)
      && IpLater(m.dst_ip, b.dst_ip, r.value.dst_ip) && IpLater(m.src_ip, b.src_ip, r.value.src_ip)
  {
    hide SerFlowKey;
    ParseSerFlowKey(m, b, []);
    assert SerFlowKey(b) + [] == SerFlowKey(b);
  }

  predicate IpLater(before: Ip, later: Ip, after: Ip) {
    && (later.NotSet? ==> after == before)
    && (later.V4? ==> after == later)
    && (later.V6? ==>
          && after.V6?
          && after.addr6.high == (if later.addr6.high != 0 then later.addr6.high
                                  else if before.V6? then before.addr6.high else 0)
          && after.addr6.low == (if later.addr6.low != 0 then later.addr6.low
                                 else if before.V6? then before.addr6.low else 0))
  }
}
