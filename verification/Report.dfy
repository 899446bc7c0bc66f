/** The telemetry messages of report.proto and their wire codec (report.pb.cc):
    values, serialization, field-by-field parsing into an existing message, and merging. */
module Report {
  import opened Bits
  import opened Wire

  datatype IPv6Address = IPv6Address(high: u64, low: u64)

  /** A oneof { fixed32 ipv4; IPv6Address ipv6 }. */
  datatype Ip = NotSet | V4(addr4: u32) | V6(addr6: IPv6Address)

  datatype FlowKey = FlowKey(dst_as: u64, src_as: u64, flow_id: u32, dst_ip: Ip, src_ip: Ip,
                             dst_port: u32, src_port: u32, protocol: i32)

  datatype Hop = Hop(asn: u64, node_id: u32, metadata: map<u32, seq<byte>>)

  datatype Report = Report(hops: seq<Hop>, packet_type: i32, truncated_packet: seq<byte>)

  const NO_IPV6 := IPv6Address(0, 0)
  const NO_FLOWKEY := FlowKey(0, 0, 0, NotSet, NotSet, 0, 0, 0)
  const NO_HOP := Hop(0, 0, map[])
  const NO_REPORT := Report([], 0, [])

  //////////////////////////////////////////////////////////////////////
  // Serialization: default scalars are skipped, oneof members are written even when zero
  //////////////////////////////////////////////////////////////////////

  function VarintField(tag: byte, v: nat): seq<byte> {
    if v == 0 then [] else [tag] + Varint(v)
  }

  function BytesField(tag: byte, b: seq<byte>): seq<byte> {
    [tag] + Delimited(b)
  }

  function FixedField(tag: byte, n: nat, v: nat): seq<byte> {
    if v == 0 then [] else [tag] + Fixed(n, v)
  }

  function SerIPv6(m: IPv6Address): seq<byte> {
    FixedField(9, 8, m.high) + FixedField(17, 8, m.low)
  }

  function SerIp(tag4: byte, tag6: byte, ip: Ip): seq<byte> {
    match ip
    case NotSet => []
    case V4(a) => [tag4] + Fixed(4, a)
    case V6(a) => BytesField(tag6, SerIPv6(a))
  }

  function SerFlowKey(m: FlowKey): seq<byte> {
    VarintField(8, m.dst_as) + (VarintField(16, m.src_as) + (VarintField(24, m.flow_id)
    + (SerIp(37, 42, m.dst_ip) + (SerIp(53, 58, m.src_ip)
    + (VarintField(64, m.dst_port) + (VarintField(72, m.src_port) + VarintField(80, EnumBits(m.protocol))))))))
  }

  /** A map entry always carries both its fields. */
  function SerEntry(key: u32, value: seq<byte>): seq<byte> {
    [8] + Varint(key) + BytesField(18, value)
  }

  /** An iteration order of a map: every key once. */
  ghost predicate Enumerates(order: seq<u32>, keys: set<u32>) {
    && (forall i, j :: 0 <= i < j < |order| ==> order[i] != order[j])
    && (forall k :: k in order <==> k in keys)
  }

  function SerEntries(m: map<u32, seq<byte>>, order: seq<u32>): seq<byte>
    requires forall k :: k in order ==> k in m
  {
    if order == [] then [] else BytesField(26, SerEntry(order[0], m[order[0]])) + SerEntries(m, order[1..])
  }

  function SerHop(m: Hop, order: seq<u32>): seq<byte>
    requires Enumerates(order, m.metadata.Keys)
  {
    VarintField(8, m.asn) + (VarintField(16, m.node_id) + SerEntries(m.metadata, order))
  }

  /** One iteration order per hop. */
  ghost predicate Orders(hops: seq<Hop>, orders: seq<seq<u32>>) {
    |orders| == |hops| && forall i :: 0 <= i < |hops| ==> Enumerates(orders[i], hops[i].metadata.Keys)
  }

  function SerHops(hops: seq<Hop>, orders: seq<seq<u32>>): seq<byte>
    requires Orders(hops, orders)
  {
    if hops == [] then [] else BytesField(10, SerHop(hops[0], orders[0])) + SerHops(hops[1..], orders[1..])
  }

  function SerReport(m: Report, orders: seq<seq<u32>>): seq<byte>
    requires Orders(m.hops, orders)
  {
    SerHops(m.hops, orders) + (VarintField(16, EnumBits(m.packet_type))
    + (if m.truncated_packet == [] then [] else BytesField(26, m.truncated_packet)))
  }

  //////////////////////////////////////////////////////////////////////
  // Merging
  //////////////////////////////////////////////////////////////////////

  function MergeIPv6(a: IPv6Address, b: IPv6Address): IPv6Address {
    IPv6Address(if b.high != 0 then b.high else a.high, if b.low != 0 then b.low else a.low)
  }

  /** A sub-message merges into one of the same case and replaces one of the other case. */
  function MergeIp(a: Ip, b: Ip): Ip {
    match b
    case NotSet => a
    case V4(_) => b
    case V6(addr) => V6(MergeIPv6(if a.V6? then a.addr6 else NO_IPV6, addr))
  }

  function MergeFlowKey(a: FlowKey, b: FlowKey): FlowKey {
    FlowKey(if b.dst_as != 0 then b.dst_as else a.dst_as, if b.src_as != 0 then b.src_as else a.src_as,
            if b.flow_id != 0 then b.flow_id else a.flow_id, MergeIp(a.dst_ip, b.dst_ip), MergeIp(a.src_ip, b.src_ip),
            if b.dst_port != 0 then b.dst_port else a.dst_port, if b.src_port != 0 then b.src_port else a.src_port,
            if b.protocol != 0 then b.protocol else a.protocol)
  }

  function MergeHop(a: Hop, b: Hop): Hop {
    Hop(if b.asn != 0 then b.asn else a.asn, if b.node_id != 0 then b.node_id else a.node_id, a.metadata + b.metadata)
  }

  function MergeReport(a: Report, b: Report): Report {
    Report(a.hops + b.hops, if b.packet_type != 0 then b.packet_type else a.packet_type,
           if b.truncated_packet != [] then b.truncated_packet else a.truncated_packet)
  }

  //////////////////////////////////////////////////////////////////////
  // Parsing into an existing message, one field per step; None is failure or an unknown field
  //////////////////////////////////////////////////////////////////////

  function StepIPv6(m: IPv6Address, x: seq<byte>): (r: Option<(IPv6Address, seq<byte>)>)
    ensures r.Some? ==> |r.value.1| < |x|
  {
    var t := ReadTag(x);
    if t.None? || t.value.0 !in {9, 17} then None else
    var v := ReadFixed(8, t.value.1);
    Pow256Values();
    if v.None? then None
    else if t.value.0 == 9 then Some((m.(high := v.value.0), v.value.1))
    else Some((m.(low := v.value.0), v.value.1))
  }

  function ParseIPv6(m: IPv6Address, x: seq<byte>): Option<IPv6Address>
    decreases |x|
  {
    if x == [] then Some(m) else
    var s := StepIPv6(m, x);
    if s.None? then None else ParseIPv6(s.value.0, s.value.1)
  }

  /** The oneof members: a fixed32, or a sub-message parsed into the current one of that case. */
  function StepV4(x: seq<byte>): (r: Option<(Ip, seq<byte>)>)
    ensures r.Some? ==> |r.value.1| < |x|
  {
    var v := ReadFixed(4, x);
    Pow256Values();
    if v.None? then None else Some((V4(v.value.0), v.value.1))
  }

  function StepV6(ip: Ip, x: seq<byte>): (r: Option<(Ip, seq<byte>)>)
    ensures r.Some? ==> |r.value.1| < |x|
  {
    var b := ReadBytes(x);
    if b.None? then None else
    var a := ParseIPv6(if ip.V6? then ip.addr6 else NO_IPV6, b.value.0);
    if a.None? then None else Some((V6(a.value), b.value.1))
  }

  function StepFlowKey(m: FlowKey, x: seq<byte>): (r: Option<(FlowKey, seq<byte>)>)
    ensures r.Some? ==> |r.value.1| < |x|
  {
    var t := ReadTag(x);
    if t.None? then None else
    var (tag, y) := t.value;
    if tag == 8 || tag == 16 || tag == 80 then
      var v := ReadVarint64(y);
      if v.None? then None
      else if tag == 8 then Some((m.(dst_as := v.value.0), v.value.1))
      else if tag == 16 then Some((m.(src_as := v.value.0), v.value.1))
      else Some((m.(protocol := EnumOf(v.value.0)), v.value.1))
    else if tag == 24 || tag == 64 || tag == 72 then
      var v := ReadVarint32(y);
      if v.None? then None
      else if tag == 24 then Some((m.(flow_id := v.value.0), v.value.1))
      else if tag == 64 then Some((m.(dst_port := v.value.0), v.value.1))
      else Some((m.(src_port := v.value.0), v.value.1))
    else if tag == 37 || tag == 42 then
      var v := if tag == 37 then StepV4(y) else StepV6(m.dst_ip, y);
      if v.None? then None else Some((m.(dst_ip := v.value.0), v.value.1))
    else if tag == 53 || tag == 58 then
      var v := if tag == 53 then StepV4(y) else StepV6(m.src_ip, y);
      if v.None? then None else Some((m.(src_ip := v.value.0), v.value.1))
    else
      None
  }

  function ParseFlowKey(m: FlowKey, x: seq<byte>): Option<FlowKey>
    decreases |x|
  {
    if x == [] then Some(m) else
    var s := StepFlowKey(m, x);
    if s.None? then None else ParseFlowKey(s.value.0, s.value.1)
  }

  datatype Entry = Entry(key: u32, value: seq<byte>)

  function StepEntry(e: Entry, x: seq<byte>): (r: Option<(Entry, seq<byte>)>)
    ensures r.Some? ==> |r.value.1| < |x|
  {
    var t := ReadTag(x);
    if t.None? then None else
    var (tag, y) := t.value;
    if tag == 8 then
      var v := ReadVarint32(y);
      if v.None? then None else Some((e.(key := v.value.0), v.value.1))
    else if tag == 18 then
      var v := ReadBytes(y);
      if v.None? then None else Some((e.(value := v.value.0), v.value.1))
    else
      None
  }

  function ParseEntry(e: Entry, x: seq<byte>): Option<Entry>
    decreases |x|
  {
    if x == [] then Some(e) else
    var s := StepEntry(e, x);
    if s.None? then None else ParseEntry(s.value.0, s.value.1)
  }

  function StepHop(m: Hop, x: seq<byte>): (r: Option<(Hop, seq<byte>)>)
    ensures r.Some? ==> |r.value.1| < |x|
  {
    var t := ReadTag(x);
    if t.None? then None else
    var (tag, y) := t.value;
    if tag == 8 then
      var v := ReadVarint64(y);
      if v.None? then None else Some((m.(asn := v.value.0), v.value.1))
    else if tag == 16 then
      var v := ReadVarint32(y);
      if v.None? then None else Some((m.(node_id := v.value.0), v.value.1))
    else if tag == 26 then
      var b := ReadBytes(y);
      if b.None? then None else
      var e := ParseEntry(Entry(0, []), b.value.0);
      if e.None? then None else Some((m.(metadata := m.metadata[e.value.key := e.value.value]), b.value.1))
    else
      None
  }

  function ParseHop(m: Hop, x: seq<byte>): Option<Hop>
    decreases |x|
  {
    if x == [] then Some(m) else
    var s := StepHop(m, x);
    if s.None? then None else ParseHop(s.value.0, s.value.1)
  }

  function StepReport(m: Report, x: seq<byte>): (r: Option<(Report, seq<byte>)>)
    ensures r.Some? ==> |r.value.1| < |x|
  {
    var t := ReadTag(x);
    if t.None? then None else
    var (tag, y) := t.value;
    if tag == 10 then
      var b := ReadBytes(y);
      if b.None? then None else
      var h := ParseHop(NO_HOP, b.value.0);
      if h.None? then None else Some((m.(hops := m.hops + [h.value]), b.value.1))
    else if tag == 16 then
      var v := ReadVarint64(y);
      if v.None? then None else Some((m.(packet_type := EnumOf(v.value.0)), v.value.1))
    else if tag == 26 then
      var b := ReadBytes(y);
      if b.None? then None else Some((m.(truncated_packet := b.value.0), b.value.1))
    else
      None
  }

  function ParseReport(m: Report, x: seq<byte>): Option<Report>
    decreases |x|
  {
    if x == [] then Some(m) else
    var s := StepReport(m, x);
    if s.None? then None else ParseReport(s.value.0, s.value.1)
  }
}
