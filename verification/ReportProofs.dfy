/** Parsing serialized bytes is merging; hence round trips and "concatenation is merge". */
module ReportProofs {
  import opened Bits
  import opened Wire
  import opened Report

  lemma Assoc(a: seq<byte>, b: seq<byte>, c: seq<byte>)
    ensures (a + b) + c == a + (b + c)
  {
  }

  //////////////////////////////////////////////////////////////////////
  // IPv6Address
  //////////////////////////////////////////////////////////////////////

  lemma IPv6Field(m: IPv6Address, tag: byte, v: u64, y: seq<byte>)
    requires tag == 9 || tag == 17
    ensures ParseIPv6(m, FixedField(tag, 8, v) + y)
         == ParseIPv6(if v == 0 then m else if tag == 9 then m.(high := v) else m.(low := v), y)
  {
    if v == 0 {
      assert FixedField(tag, 8, v) + y == y;
    } else {
      var x := FixedField(tag, 8, v) + y;
      Assoc([tag], Fixed(8, v), y);
      ReadTagOf(tag, Fixed(8, v) + y);
      Pow256Values();
      ReadFixedOf(8, v, y);
    }
  }

  lemma ParseSerIPv6(m: IPv6Address, b: IPv6Address, y: seq<byte>)
    ensures ParseIPv6(m, SerIPv6(b) + y) == ParseIPv6(MergeIPv6(m, b), y)
  {
    Assoc(FixedField(9, 8, b.high), FixedField(17, 8, b.low), y);
    IPv6Field(m, 9, b.high, FixedField(17, 8, b.low) + y);
    IPv6Field(if b.high == 0 then m else m.(high := b.high), 17, b.low, y);
  }

  //////////////////////////////////////////////////////////////////////
  // FlowKey
  //////////////////////////////////////////////////////////////////////

  function SetFlowKey(m: FlowKey, tag: byte, v: u64): FlowKey
    requires tag in {24, 64, 72} ==> v < 0x1_0000_0000
  {
    if tag == 8 then m.(dst_as := v)
    else if tag == 16 then m.(src_as := v)
    else if tag == 24 then m.(flow_id := v)
    else if tag == 64 then m.(dst_port := v)
    else if tag == 72 then m.(src_port := v)
    else m.(protocol := EnumOf(v))
  }

  lemma FlowKeyField(m: FlowKey, tag: byte, v: u64, y: seq<byte>)
    requires tag in {8, 16, 24, 64, 72, 80} && (tag in {24, 64, 72} ==> v < 0x1_0000_0000)
    ensures ParseFlowKey(m, VarintField(tag, v) + y) == ParseFlowKey(if v == 0 then m else SetFlowKey(m, tag, v), y)
  {
    if v == 0 {
      assert VarintField(tag, v) + y == y;
    } else {
      Assoc([tag], Varint(v), y);
      ReadTagOf(tag, Varint(v) + y);
      ReadVarint64Of(v, y);
      if v < 0x1_0000_0000 {
        ReadVarint32Of(v, y);
      }
    }
  }

  lemma StepV6Of(ip: Ip, a: IPv6Address, y: seq<byte>)
    ensures StepV6(ip, Delimited(SerIPv6(a)) + y) == Some((MergeIp(ip, V6(a)), y))
  {
    ReadBytesOf(SerIPv6(a), y);
    assert SerIPv6(a) + [] == SerIPv6(a);
    ParseSerIPv6(if ip.V6? then ip.addr6 else NO_IPV6, a, []);
  }

  lemma StepV4Of(a: u32, y: seq<byte>)
    ensures StepV4(Fixed(4, a) + y) == Some((V4(a), y))
  {
    Pow256Values();
    ReadFixedOf(4, a, y);
  }

  lemma FlowKeyIp(m: FlowKey, dst: bool, ip: Ip, y: seq<byte>)
    ensures ParseFlowKey(m, SerIp(if dst then 37 else 53, if dst then 42 else 58, ip) + y)
         == ParseFlowKey(if dst then m.(dst_ip := MergeIp(m.dst_ip, ip)) else m.(src_ip := MergeIp(m.src_ip, ip)), y)
  {
    hide StepV4;
    hide StepV6;
    var t4: byte, t6: byte := if dst then 37 else 53, if dst then 42 else 58;
    match ip
    case NotSet =>
      assert SerIp(t4, t6, ip) + y == y;
    case V4(a) =>
      Assoc([t4], Fixed(4, a), y);
      ReadTagOf(t4, Fixed(4, a) + y);
      StepV4Of(a, y);
    case V6(a) =>
      Assoc([t6], Delimited(SerIPv6(a)), y);
      ReadTagOf(t6, Delimited(SerIPv6(a)) + y);
      StepV6Of(if dst then m.dst_ip else m.src_ip, a, y);
  }

  lemma Nest8(a: seq<byte>, b: seq<byte>, c: seq<byte>, d: seq<byte>, e: seq<byte>, f: seq<byte>, g: seq<byte>,
              h: seq<byte>, y: seq<byte>)
    ensures (a + (b + (c + (d + (e + (f + (g + h))))))) + y == a + (b + (c + (d + (e + (f + (g + (h + y)))))))
  {
    Assoc(g, h, y);
    Assoc(f, g + h, y);
    Assoc(e, f + (g + h), y);
    Assoc(d, e + (f + (g + h)), y);
    Assoc(c, d + (e + (f + (g + h))), y);
    Assoc(b, c + (d + (e + (f + (g + h)))), y);
    Assoc(a, b + (c + (d + (e + (f + (g + h))))), y);
  }

  /** Parsing a serialized key merges it, whatever the message held and whatever follows. */
  lemma ParseSerFlowKey(m: FlowKey, b: FlowKey, y: seq<byte>)
    ensures ParseFlowKey(m, SerFlowKey(b) + y) == ParseFlowKey(MergeFlowKey(m, b), y)
  {
    hide ParseFlowKey;
    hide VarintField;
    hide SerIp;
    hide MergeIp;
    var f8 := VarintField(80, EnumBits(b.protocol));
    var f7, f6 := VarintField(72, b.src_port), VarintField(64, b.dst_port);
    var f5, f4 := SerIp(53, 58, b.src_ip), SerIp(37, 42, b.dst_ip);
    var f3, f2, f1 := VarintField(24, b.flow_id), VarintField(16, b.src_as), VarintField(8, b.dst_as);
    Nest8(f1, f2, f3, f4, f5, f6, f7, f8, y);
    var y8 := f8 + y;
    var y7 := f7 + y8;
    var y6 := f6 + y7;
    var y5 := f5 + y6;
    var y4 := f4 + y5;
    var y3 := f3 + y4;
    FlowKeyField(m, 8, b.dst_as, f2 + y3);
    var m1 := if b.dst_as == 0 then m else m.(dst_as := b.dst_as);
    FlowKeyField(m1, 16, b.src_as, y3);
    var m2 := if b.src_as == 0 then m1 else m1.(src_as := b.src_as);
    FlowKeyField(m2, 24, b.flow_id, y4);
    var m3 := if b.flow_id == 0 then m2 else m2.(flow_id := b.flow_id);
    FlowKeyIp(m3, true, b.dst_ip, y5);
    var m4 := m3.(dst_ip := MergeIp(m3.dst_ip, b.dst_ip));
    FlowKeyIp(m4, false, b.src_ip, y6);
    var m5 := m4.(src_ip := MergeIp(m4.src_ip, b.src_ip));
    FlowKeyField(m5, 64, b.dst_port, y7);
    var m6 := if b.dst_port == 0 then m5 else m5.(dst_port := b.dst_port);
    FlowKeyField(m6, 72, b.src_port, y8);
    var m7 := if b.src_port == 0 then m6 else m6.(src_port := b.src_port);
    EnumRoundTrip(b.protocol);
    FlowKeyField(m7, 80, EnumBits(b.protocol), y);
  }

  lemma MergeIntoEmptyFlowKey(b: FlowKey)
    ensures MergeFlowKey(NO_FLOWKEY, b) == b
  {
  }

  /** Round trip, oneof cases included: a zero address is not the same as no address. */
  lemma FlowKeyRoundTrip(b: FlowKey)
    ensures ParseFlowKey(NO_FLOWKEY, SerFlowKey(b)) == Some(b)
  {
    assert SerFlowKey(b) + [] == SerFlowKey(b);
    ParseSerFlowKey(NO_FLOWKEY, b, []);
    MergeIntoEmptyFlowKey(b);
  }

  /** Concatenation is merge. */
  lemma FlowKeyConcat(a: FlowKey, b: FlowKey)
    ensures ParseFlowKey(NO_FLOWKEY, SerFlowKey(a) + SerFlowKey(b)) == Some(MergeFlowKey(a, b))
  {
    ParseSerFlowKey(NO_FLOWKEY, a, SerFlowKey(b));
    MergeIntoEmptyFlowKey(a);
    assert SerFlowKey(b) + [] == SerFlowKey(b);
    ParseSerFlowKey(a, b, []);
  }

  //////////////////////////////////////////////////////////////////////
  // Hop
  //////////////////////////////////////////////////////////////////////

  lemma ParseSerEntry(key: u32, value: seq<byte>)
    requires |value| <= MAX_SIZE
    ensures ParseEntry(Entry(0, []), SerEntry(key, value)) == Some(Entry(key, value))
  {
    var y := BytesField(18, value);
    Assoc([8], Varint(key), y);
    ReadTagOf(8, Varint(key) + y);
    ReadVarint32Of(key, y);
    assert StepEntry(Entry(0, []), SerEntry(key, value)) == Some((Entry(key, []), y));
    assert Delimited(value) + [] == Delimited(value);
    ReadTagOf(18, Delimited(value));
    ReadBytesOf(value, []);
    assert StepEntry(Entry(key, []), y) == Some((Entry(key, value), []));
    assert ParseEntry(Entry(key, []), y) == ParseEntry(Entry(key, value), []);
    assert SerEntry(key, value) != [] && y != [];
  }

  lemma HopField(m: Hop, tag: byte, v: u64, y: seq<byte>)
    requires tag == 8 || (tag == 16 && v < 0x1_0000_0000)
    ensures ParseHop(m, VarintField(tag, v) + y)
         == ParseHop(if v == 0 then m else if tag == 8 then m.(asn := v) else m.(node_id := v), y)
  {
    if v == 0 {
      assert VarintField(tag, v) + y == y;
    } else {
      Assoc([tag], Varint(v), y);
      ReadTagOf(tag, Varint(v) + y);
      ReadVarint64Of(v, y);
      if tag == 16 {
        ReadVarint32Of(v, y);
      }
    }
  }

  lemma HopEntry(m: Hop, key: u32, value: seq<byte>, y: seq<byte>)
    requires |SerEntry(key, value)| <= MAX_SIZE
    ensures ParseHop(m, BytesField(26, SerEntry(key, value)) + y)
         == ParseHop(m.(metadata := m.metadata[key := value]), y)
  {
    var e := SerEntry(key, value);
    Assoc([26], Delimited(e), y);
    ReadTagOf(26, Delimited(e) + y);
    ReadBytesOf(e, y);
    ParseSerEntry(key, value);
  }

  /** The part of a map one order lists. */
  function Listed(m: map<u32, seq<byte>>, order: seq<u32>): map<u32, seq<byte>>
    requires forall k :: k in order ==> k in m
  {
    map k | k in order :: m[k]
  }

  lemma {:induction false} HopEntries(h: Hop, m: map<u32, seq<byte>>, order: seq<u32>, y: seq<byte>)
    requires forall k :: k in order ==> k in m
    requires forall i, j :: 0 <= i < j < |order| ==> order[i] != order[j]
    requires |SerEntries(m, order)| <= MAX_SIZE
    ensures ParseHop(h, SerEntries(m, order) + y) == ParseHop(h.(metadata := h.metadata + Listed(m, order)), y)
    decreases |order|
  {
    hide ParseHop;
    hide SerEntry;
    if order == [] {
      assert SerEntries(m, order) + y == y;
      assert h.metadata + Listed(m, order) == h.metadata;
    } else {
      var k, rest := order[0], order[1..];
      var f := BytesField(26, SerEntry(k, m[k]));
      Assoc(f, SerEntries(m, rest), y);
      HopEntry(h, k, m[k], SerEntries(m, rest) + y);
      var h' := h.(metadata := h.metadata[k := m[k]]);
      HopEntries(h', m, rest, y);
      ListedStep(h.metadata, m, order);
    }
  }

  lemma ListedStep(a: map<u32, seq<byte>>, m: map<u32, seq<byte>>, order: seq<u32>)
    requires order != [] && (forall k :: k in order ==> k in m)
    requires forall i, j :: 0 <= i < j < |order| ==> order[i] != order[j]
    ensures a[order[0] := m[order[0]]] + Listed(m, order[1..]) == a + Listed(m, order)
  {
    assert order == [order[0]] + order[1..];
  }

  /** Parsing a serialized hop merges it, for any order in which its map was written. */
  lemma ParseSerHop(h: Hop, b: Hop, order: seq<u32>, y: seq<byte>)
    requires Enumerates(order, b.metadata.Keys) && |SerHop(b, order)| <= MAX_SIZE
    ensures ParseHop(h, SerHop(b, order) + y) == ParseHop(MergeHop(h, b), y)
  {
    hide ParseHop;
    hide VarintField;
    var f1, f2, f3 := VarintField(8, b.asn), VarintField(16, b.node_id), SerEntries(b.metadata, order);
    Assoc(f1, f2 + f3, y);
    Assoc(f2, f3, y);
    HopField(h, 8, b.asn, f2 + (f3 + y));
    var h1 := if b.asn == 0 then h else h.(asn := b.asn);
    HopField(h1, 16, b.node_id, f3 + y);
    var h2 := if b.node_id == 0 then h1 else h1.(node_id := b.node_id);
    HopEntries(h2, b.metadata, order, y);
    assert Listed(b.metadata, order) == b.metadata;
  }

  //////////////////////////////////////////////////////////////////////
  // Report
  //////////////////////////////////////////////////////////////////////

  lemma ReportHop(m: Report, b: Hop, order: seq<u32>, y: seq<byte>)
    requires Enumerates(order, b.metadata.Keys) && |SerHop(b, order)| <= MAX_SIZE
    ensures ParseReport(m, BytesField(10, SerHop(b, order)) + y) == ParseReport(m.(hops := m.hops + [b]), y)
  {
    var e := SerHop(b, order);
    Assoc([10], Delimited(e), y);
    ReadTagOf(10, Delimited(e) + y);
    ReadBytesOf(e, y);
    assert e + [] == e;
    ParseSerHop(NO_HOP, b, order, []);
    assert MergeHop(NO_HOP, b) == b;
  }

  lemma {:induction false} ReportHops(m: Report, hops: seq<Hop>, orders: seq<seq<u32>>, y: seq<byte>)
    requires Orders(hops, orders) && |SerHops(hops, orders)| <= MAX_SIZE
    ensures ParseReport(m, SerHops(hops, orders) + y) == ParseReport(m.(hops := m.hops + hops), y)
    decreases |hops|
  {
    hide ParseReport;
    hide SerHop;
    hide Enumerates;
    if hops == [] {
      assert SerHops(hops, orders) + y == y && m.hops + hops == m.hops;
    } else {
      var f := BytesField(10, SerHop(hops[0], orders[0]));
      Assoc(f, SerHops(hops[1..], orders[1..]), y);
      ReportHop(m, hops[0], orders[0], SerHops(hops[1..], orders[1..]) + y);
      var m' := m.(hops := m.hops + [hops[0]]);
      ReportHops(m', hops[1..], orders[1..], y);
      assert m'.hops + hops[1..] == m.hops + hops;
    }
  }

  lemma ReportType(m: Report, v: u64, y: seq<byte>)
    ensures ParseReport(m, VarintField(16, v) + y) == ParseReport(if v == 0 then m else m.(packet_type := EnumOf(v)), y)
  {
    if v == 0 {
      assert VarintField(16, v) + y == y;
    } else {
      Assoc([16], Varint(v), y);
      ReadTagOf(16, Varint(v) + y);
      ReadVarint64Of(v, y);
    }
  }

  lemma ReportPacket(m: Report, b: seq<byte>, y: seq<byte>)
    requires |b| <= MAX_SIZE
    ensures ParseReport(m, BytesField(26, b) + y) == ParseReport(m.(truncated_packet := b), y)
  {
    Assoc([26], Delimited(b), y);
    ReadTagOf(26, Delimited(b) + y);
    ReadBytesOf(b, y);
  }

  /** Parsing a serialized report merges it; the 2 GiB bound is the library's. */
  lemma ParseSerReport(m: Report, b: Report, orders: seq<seq<u32>>, y: seq<byte>)
    requires Orders(b.hops, orders) && |SerReport(b, orders)| <= MAX_SIZE
    ensures ParseReport(m, SerReport(b, orders) + y) == ParseReport(MergeReport(m, b), y)
  {
    hide ParseReport;
    hide VarintField;
    var f1, f2 := SerHops(b.hops, orders), VarintField(16, EnumBits(b.packet_type));
    var f3 := if b.truncated_packet == [] then [] else BytesField(26, b.truncated_packet);
    Assoc(f1, f2 + f3, y);
    Assoc(f2, f3, y);
    ReportHops(m, b.hops, orders, f2 + (f3 + y));
    var m1 := m.(hops := m.hops + b.hops);
    EnumRoundTrip(b.packet_type);
    ReportType(m1, EnumBits(b.packet_type), f3 + y);
    var m2 := if b.packet_type == 0 then m1 else m1.(packet_type := b.packet_type);
    if b.truncated_packet == [] {
      assert f3 + y == y;
    } else {
      ReportPacket(m2, b.truncated_packet, y);
    }
  }

  /** Round trip for every report and every order in which its maps are written. */
  lemma ReportRoundTrip(b: Report, orders: seq<seq<u32>>)
    requires Orders(b.hops, orders) && |SerReport(b, orders)| <= MAX_SIZE
    ensures ParseReport(NO_REPORT, SerReport(b, orders)) == Some(b)
  {
    assert SerReport(b, orders) + [] == SerReport(b, orders);
    ParseSerReport(NO_REPORT, b, orders, []);
    assert NO_REPORT.hops + b.hops == b.hops;
  }

  /** Concatenation is merge: hops append, scalars and the packet override when set. */
  lemma ReportConcat(a: Report, b: Report, ordersA: seq<seq<u32>>, ordersB: seq<seq<u32>>)
    requires Orders(a.hops, ordersA) && |SerReport(a, ordersA)| <= MAX_SIZE
    requires Orders(b.hops, ordersB) && |SerReport(b, ordersB)| <= MAX_SIZE
    ensures ParseReport(NO_REPORT, SerReport(a, ordersA) + SerReport(b, ordersB)) == Some(MergeReport(a, b))
  {
    hide StepReport;
    hide SerReport;
    hide Orders;
    var y := SerReport(b, ordersB);
    ParseSerReport(NO_REPORT, a, ordersA, y);
    assert NO_REPORT.hops + a.hops == a.hops;
    assert y + [] == y;
    ParseSerReport(a, b, ordersB, []);
  }

  /** The same for hops, whose map entries override by key. */
  lemma HopConcat(a: Hop, b: Hop, orderA: seq<u32>, orderB: seq<u32>)
    requires Enumerates(orderA, a.metadata.Keys) && |SerHop(a, orderA)| <= MAX_SIZE
    requires Enumerates(orderB, b.metadata.Keys) && |SerHop(b, orderB)| <= MAX_SIZE
    ensures ParseHop(NO_HOP, SerHop(a, orderA) + SerHop(b, orderB)) == Some(MergeHop(a, b))
  {
    var y := SerHop(b, orderB);
    ParseSerHop(NO_HOP, a, orderA, y);
    assert MergeHop(NO_HOP, a) == a;
    assert y + [] == y;
    ParseSerHop(a, b, orderB, []);
  }
}
