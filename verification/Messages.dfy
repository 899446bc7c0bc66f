/** The generated message classes: fields updated in place by parse loops and merges,
    serializers that append, and size computations that add up. */
module Messages {
  import opened Bits
  import opened Wire
  import opened Report
  import opened ReportProofs

  class IPv6Message {
    var high: u64
    var low: u64

    function Value(): IPv6Address
      reads this
    {
      IPv6Address(high, low)
    }

    constructor (v: IPv6Address)
      ensures Value() == v
    {
      high, low := v.high, v.low;
    }

    method MergeFrom(from: IPv6Address)
      modifies this
      ensures Value() == MergeIPv6(old(Value()), from)
    {
      if from.high != 0 {
        high := from.high;
      }
      if from.low != 0 {
        low := from.low;
      }
    }

    method InternalParse(data: seq<byte>) returns (ok: bool)
      modifies this
      ensures ok == ParseIPv6(old(Value()), data).Some?
      ensures ok ==> Some(Value()) == ParseIPv6(old(Value()), data)
    {
      var x := data;
      while x != []
        invariant ParseIPv6(Value(), x) == ParseIPv6(old(Value()), data)
        decreases |x|
      {
        var t := ReadTag(x);
        if t.None? { return false; }
        var tag, y := t.value.0, t.value.1;
        if tag != 9 && tag != 17 { return false; }
        var v := ReadFixed(8, y);
        if v.None? { return false; }
        Pow256Values();
        if tag == 9 {
          high := v.value.0;
        } else {
          low := v.value.0;
        }
        x := v.value.1;
      }
      return true;
    }

    method InternalSerialize() returns (target: seq<byte>)
      ensures target == SerIPv6(Value())
    {
      target := [];
      if high != 0 {
        target := target + ([9] + Fixed(8, high));
      }
      if low != 0 {
        target := target + ([17] + Fixed(8, low));
      }
    }

    method ByteSizeLong() returns (n: nat)
      ensures n == |SerIPv6(Value())|
    {
      n := 0;
      if high != 0 {
        n := n + 1 + 8;
      }
      if low != 0 {
        n := n + 1 + 8;
      }
    }
  }

  /** Which member of the union is set. */
  datatype IpCase = IpNotSet | IpIsIpv4 | IpIsIpv6

  /** A oneof { fixed32 ipv4; IPv6Address ipv6 }: a case tag and a union of a number and an owned sub-message. */
  class IpOneof {
    var tag: IpCase
    var ipv4: u32
    var ipv6: IPv6Message?

    ghost predicate Valid()
      reads this
    {
      tag.IpIsIpv6? <==> ipv6 != null
    }

    ghost function Repr(): set<object>
      reads this
    {
      if ipv6 == null then {this} else {this, ipv6}
    }

    function Value(): Ip
      requires Valid()
      reads this, ipv6
    {
      if tag.IpNotSet? then NotSet else if tag.IpIsIpv4? then V4(ipv4) else V6(ipv6.Value())
    }

    constructor ()
      ensures Valid() && Value() == NotSet && fresh(Repr())
    {
      tag, ipv4, ipv6 := IpNotSet, 0, null;
    }

    /** The sub-message, if there is one, is given up. */
    method Clear()
      requires Valid()
      modifies this
      ensures Valid() && tag == IpNotSet && ipv6 == null
    {
      if tag.IpIsIpv6? {
        ipv6 := null;
      }
      tag := IpNotSet;
    }

    method SetIpv4(v: u32)
      requires Valid()
      modifies this
      ensures Valid() && Value() == V4(v) && ipv6 == null
    {
      if !tag.IpIsIpv4? {
        Clear();
        tag := IpIsIpv4;
      }
      ipv4 := v;
    }

    /** The current sub-message itself; from any other case, a new empty one after that case was cleared. */
    method MutableIPv6() returns (m: IPv6Message)
      requires Valid()
      modifies this
      ensures Valid() && tag == IpIsIpv6 && m == ipv6
      ensures if old(tag).IpIsIpv6? then m == old(ipv6) && m.Value() == old(m.Value())
              else fresh(m) && m.Value() == NO_IPV6
    {
      if !tag.IpIsIpv6? {
        Clear();
        tag := IpIsIpv6;
        ipv6 := new IPv6Message(NO_IPV6);
      }
      m := ipv6;
    }

    /** A sub-message merges into the current one of that case and replaces the other case. */
    method MergeFrom(from: Ip)
      requires Valid()
      modifies Repr()
      ensures Valid() && fresh(Repr() - old(Repr()))
      ensures Value() == MergeIp(old(Value()), from)
    {
      match from
      case NotSet =>
      case V4(a) => SetIpv4(a);
      case V6(a) =>
        var m := MutableIPv6();
        m.MergeFrom(a);
    }

    /** The fixed32 case of the parse loop. */
    method ParseIpv4(y: seq<byte>) returns (r: Option<seq<byte>>)
      requires Valid()
      modifies Repr()
      ensures Valid() && fresh(Repr() - old(Repr()))
      ensures r.Some? == StepV4(y).Some? && (r.Some? ==> StepV4(y) == Some((Value(), r.value)))
    {
      var v := ReadFixed(4, y);
      if v.None? { return None; }
      Pow256Values();
      SetIpv4(v.value.0);
      r := Some(v.value.1);
    }

    /** The sub-message case: it is parsed in place. */
    method ParseIpv6(y: seq<byte>) returns (r: Option<seq<byte>>)
      requires Valid()
      modifies Repr()
      ensures Valid() && fresh(Repr() - old(Repr()))
      ensures r.Some? == StepV6(old(Value()), y).Some?
      ensures r.Some? ==> StepV6(old(Value()), y) == Some((Value(), r.value))
    {
      var m := MutableIPv6();
      var b := ReadBytes(y);
      if b.None? { return None; }
      var ok := m.InternalParse(b.value.0);
      r := if ok then Some(b.value.1) else None;
    }

    /** Appends the member that is set, by the tests of the two members. */
    method SerializeAfter(target: seq<byte>, tag4: byte, tag6: byte) returns (r: seq<byte>)
      requires Valid()
      ensures r == target + SerIp(tag4, tag6, Value())
    {
      hide Fixed;
      hide Varint;
      r := target;
      if tag.IpIsIpv4? {
        r := r + ([tag4] + Fixed(4, ipv4));
      }
      if tag.IpIsIpv6? {
        var b := ipv6.InternalSerialize();
        r := r + BytesField(tag6, b);
      }
      assert target + [] == target;
    }

    /** Size of the member that is set. */
    method ByteSizeLong() returns (n: nat)
      requires Valid()
      ensures n == |SerIp(37, 42, Value())|
    {
      n := 0;
      if tag.IpIsIpv4? {
        n := 1 + 4;
      } else if tag.IpIsIpv6? {
        n := ipv6.ByteSizeLong();
        n := 1 + VarintSize(n) + n;
      }
    }
  }

  class FlowKeyMessage {
    var dst_as: u64
    var src_as: u64
    var flow_id: u32
    const dst_ip: IpOneof
    const src_ip: IpOneof
    var dst_port: u32
    var src_port: u32
    var protocol: i32

    ghost predicate Valid()
      reads this, dst_ip, src_ip
    {
      dst_ip.Valid() && src_ip.Valid() && dst_ip.Repr() !! src_ip.Repr() && this !in dst_ip.Repr() + src_ip.Repr()
    }

    ghost function Repr(): set<object>
      reads this, dst_ip, src_ip
    {
      {this} + dst_ip.Repr() + src_ip.Repr()
    }

    function Value(): FlowKey
      requires Valid()
      reads this, dst_ip, src_ip, dst_ip.ipv6, src_ip.ipv6
    {
      FlowKey(dst_as, src_as, flow_id, dst_ip.Value(), src_ip.Value(), dst_port, src_port, protocol)
    }

    constructor ()
      ensures Valid() && Value() == NO_FLOWKEY && fresh(Repr())
    {
      dst_as, src_as, flow_id, dst_port, src_port, protocol := 0, 0, 0, 0, 0, 0;
      dst_ip := new IpOneof();
      src_ip := new IpOneof();
    }

    method MergeFrom(from: FlowKey)
      requires Valid()
      modifies Repr()
      ensures Valid() && fresh(Repr() - old(Repr()))
      ensures Value() == MergeFlowKey(old(Value()), from)
    {
      MergeScalars(from);
      MergeDstIp(from.dst_ip);
      MergeSrcIp(from.src_ip);
    }

    method MergeDstIp(from: Ip)
      requires Valid()
      modifies dst_ip.Repr()
      ensures Valid() && fresh(dst_ip.Repr() - old(dst_ip.Repr()))
      ensures dst_ip.Value() == MergeIp(old(dst_ip.Value()), from) && src_ip.Value() == old(src_ip.Value())
    {
      hide MergeIp;
      dst_ip.MergeFrom(from);
    }

    method MergeSrcIp(from: Ip)
      requires Valid()
      modifies src_ip.Repr()
      ensures Valid() && fresh(src_ip.Repr() - old(src_ip.Repr()))
      ensures src_ip.Value() == MergeIp(old(src_ip.Value()), from) && dst_ip.Value() == old(dst_ip.Value())
    {
      hide MergeIp;
      src_ip.MergeFrom(from);
    }

    method MergeScalars(from: FlowKey)
      modifies this
      ensures dst_as == (if from.dst_as != 0 then from.dst_as else old(dst_as))
      ensures src_as == (if from.src_as != 0 then from.src_as else old(src_as))
      ensures flow_id == (if from.flow_id != 0 then from.flow_id else old(flow_id))
      ensures dst_port == (if from.dst_port != 0 then from.dst_port else old(dst_port))
      ensures src_port == (if from.src_port != 0 then from.src_port else old(src_port))
      ensures protocol == (if from.protocol != 0 then from.protocol else old(protocol))
    {
      if from.dst_as != 0 {
        dst_as := from.dst_as;
      }
      if from.src_as != 0 {
        src_as := from.src_as;
      }
      if from.flow_id != 0 {
        flow_id := from.flow_id;
      }
      if from.dst_port != 0 {
        dst_port := from.dst_port;
      }
      if from.src_port != 0 {
        src_port := from.src_port;
      }
      if from.protocol != 0 {
        protocol := from.protocol;
      }
    }

    /** One turn of the parse loop: the switch on the tag. */
    method ParseField(x: seq<byte>) returns (r: Option<seq<byte>>)
      requires Valid()
      modifies Repr()
      ensures Valid() && fresh(Repr() - old(Repr()))
      ensures r.Some? == StepFlowKey(old(Value()), x).Some?
      ensures r.Some? ==> StepFlowKey(old(Value()), x) == Some((Value(), r.value))
    {
      hide StepV4;
      hide StepV6;
      hide ReadVarint64;
      hide ReadVarint32;
      hide ReadTag;
      var t := ReadTag(x);
      if t.None? { return None; }
      var tag, y := t.value.0, t.value.1;
      if tag == 8 || tag == 16 || tag == 80 {
        var v := ReadVarint64(y);
        if v.None? { return None; }
        if tag == 8 {
          dst_as := v.value.0;
        } else if tag == 16 {
          src_as := v.value.0;
        } else {
          protocol := EnumOf(v.value.0);
        }
        return Some(v.value.1);
      }
      if tag == 24 || tag == 64 || tag == 72 {
        var v := ReadVarint32(y);
        if v.None? { return None; }
        if tag == 24 {
          flow_id := v.value.0;
        } else if tag == 64 {
          dst_port := v.value.0;
        } else {
          src_port := v.value.0;
        }
        return Some(v.value.1);
      }
      r := None;
      if tag == 37 {
        r := dst_ip.ParseIpv4(y);
      } else if tag == 42 {
        r := dst_ip.ParseIpv6(y);
      } else if tag == 53 {
        r := src_ip.ParseIpv4(y);
      } else if tag == 58 {
        r := src_ip.ParseIpv6(y);
      }
    }

    method InternalParse(data: seq<byte>) returns (ok: bool)
      requires Valid()
      modifies Repr()
      ensures Valid() && fresh(Repr() - old(Repr()))
      ensures ok == ParseFlowKey(old(Value()), data).Some?
      ensures ok ==> Some(Value()) == ParseFlowKey(old(Value()), data)
    {
      hide StepFlowKey;
      var x := data;
      while x != []
        invariant Valid() && fresh(Repr() - old(Repr()))
        invariant ParseFlowKey(Value(), x) == ParseFlowKey(old(Value()), data)
        decreases |x|
      {
        ghost var before := Value();
        var r := ParseField(x);
        if r.None? { return false; }
        assert ParseFlowKey(before, x) == ParseFlowKey(Value(), r.value);
        x := r.value;
      }
      return true;
    }

    method InternalSerialize() returns (target: seq<byte>)
      requires Valid()
      ensures target == SerFlowKey(Value())
    {
      hide SerIp;
      hide VarintField;
      target := WriteVarint([], 8, dst_as);
      target := WriteVarint(target, 16, src_as);
      target := WriteVarint(target, 24, flow_id);
      target := dst_ip.SerializeAfter(target, 37, 42);
      target := src_ip.SerializeAfter(target, 53, 58);
      target := WriteVarint(target, 64, dst_port);
      target := WriteVarint(target, 72, src_port);
      target := WriteVarint(target, 80, EnumBits(protocol));
      var f1, f2 := VarintField(8, dst_as), VarintField(16, src_as);
      assert [] + f1 == f1;
      LeftNest8(f1, f2, VarintField(24, flow_id), SerIp(37, 42, dst_ip.Value()), SerIp(53, 58, src_ip.Value()),
                VarintField(64, dst_port), VarintField(72, src_port), VarintField(80, EnumBits(protocol)));
    }

    method ByteSizeLong() returns (n: nat)
      requires Valid()
      ensures n == |SerFlowKey(Value())|
    {
      hide VarintField;
      hide SerIp;
      FlowKeySize(Value());
      hide SerFlowKey;
      n := AddVarintSize(0, 8, dst_as);
      n := AddVarintSize(n, 16, src_as);
      n := AddVarintSize(n, 24, flow_id);
      n := AddVarintSize(n, 64, dst_port);
      n := AddVarintSize(n, 72, src_port);
      n := AddVarintSize(n, 80, EnumBits(protocol));
      var a := dst_ip.ByteSizeLong();
      var b := src_ip.ByteSizeLong();
      IpSizes(src_ip.Value());
      n := n + a + b;
    }
  }

  /** A scalar field, skipped when it has its default value. */
  method WriteVarint(target: seq<byte>, tag: byte, v: u64) returns (r: seq<byte>)
    ensures r == target + VarintField(tag, v)
  {
    r := target;
    if v != 0 {
      r := r + ([tag] + Varint(v));
    }
  }

  /** The size of a scalar field, nothing when it has its default value. */
  method AddVarintSize(n: nat, tag: byte, v: u64) returns (r: nat)
    ensures r == n + |VarintField(tag, v)|
  {
    r := n;
    if v != 0 {
      r := r + VarintSize(v) + 1;
    }
  }

  lemma FlowKeySize(m: FlowKey)
    ensures |SerFlowKey(m)| == |VarintField(8, m.dst_as)| + |VarintField(16, m.src_as)| + |VarintField(24, m.flow_id)|
                               + |SerIp(37, 42, m.dst_ip)| + |SerIp(53, 58, m.src_ip)| + |VarintField(64, m.dst_port)|
                               + |VarintField(72, m.src_port)| + |VarintField(80, EnumBits(m.protocol))|
  {
    hide VarintField;
    hide SerIp;
  }

  lemma IpSizes(ip: Ip)
    ensures |SerIp(37, 42, ip)| == |SerIp(53, 58, ip)|
  {
  }

  lemma LeftNest8(a: seq<byte>, b: seq<byte>, c: seq<byte>, d: seq<byte>, e: seq<byte>, f: seq<byte>, g: seq<byte>,
                  h: seq<byte>)
    ensures a + b + c + d + e + f + g + h == a + (b + (c + (d + (e + (f + (g + h))))))
  {
    Assoc(a + b + c + d + e + f, g, h);
    Assoc(a + b + c + d + e, f, g + h);
    Assoc(a + b + c + d, e, f + (g + h));
    Assoc(a + b + c, d, e + (f + (g + h)));
    Assoc(a + b, c, d + (e + (f + (g + h))));
    Assoc(a, b, c + (d + (e + (f + (g + h)))));
  }

  class HopMessage {
    var asn: u64
    var node_id: u32
    var metadata: map<u32, seq<byte>>

    function Value(): Hop
      reads this
    {
      Hop(asn, node_id, metadata)
    }

    constructor ()
      ensures Value() == NO_HOP
    {
      asn, node_id, metadata := 0, 0, map[];
    }

    method MergeFrom(from: Hop)
      modifies this
      ensures Value() == MergeHop(old(Value()), from)
    {
      metadata := metadata + from.metadata;
      if from.asn != 0 {
        asn := from.asn;
      }
      if from.node_id != 0 {
        node_id := from.node_id;
      }
    }

    method ParseMapEntry(data: seq<byte>) returns (r: Option<Entry>)
      ensures r == ParseEntry(Entry(0, []), data)
    {
      var e, x := Entry(0, []), data;
      while x != []
        invariant ParseEntry(e, x) == ParseEntry(Entry(0, []), data)
        decreases |x|
      {
        var s := StepEntry(e, x);
        if s.None? { return None; }
        e, x := s.value.0, s.value.1;
      }
      return Some(e);
    }

    method InternalParse(data: seq<byte>) returns (ok: bool)
      modifies this
      ensures ok == ParseHop(old(Value()), data).Some?
      ensures ok ==> Some(Value()) == ParseHop(old(Value()), data)
    {
      var x := data;
      while x != []
        invariant ParseHop(Value(), x) == ParseHop(old(Value()), data)
        decreases |x|
      {
        var t := ReadTag(x);
        if t.None? { return false; }
        var tag, y := t.value.0, t.value.1;
        if tag == 8 {
          var v := ReadVarint64(y);
          if v.None? { return false; }
          asn, x := v.value.0, v.value.1;
        } else if tag == 16 {
          var v := ReadVarint32(y);
          if v.None? { return false; }
          node_id, x := v.value.0, v.value.1;
        } else if tag == 26 {
          var b := ReadBytes(y);
          if b.None? { return false; }
          var e := ParseMapEntry(b.value.0);
          if e.None? { return false; }
          metadata, x := metadata[e.value.key := e.value.value], b.value.1;
        } else {
          return false;
        }
      }
      return true;
    }

    /** order is the iteration order of the map, or its sorted keys in deterministic mode. */
    method InternalSerialize(order: seq<u32>) returns (target: seq<byte>)
      requires Enumerates(order, metadata.Keys)
      ensures target == SerHop(Value(), order)
    {
      hide BytesField;
      hide SerEntry;
      target := [];
      if asn != 0 {
        target := target + ([8] + Varint(asn));
      }
      if node_id != 0 {
        target := target + ([16] + Varint(node_id));
      }
      ghost var front := target;
      var i := 0;
      while i < |order|
        invariant 0 <= i <= |order|
        invariant front + SerEntries(metadata, order) == target + SerEntries(metadata, order[i..])
      {
        var f := BytesField(26, SerEntry(order[i], metadata[order[i]]));
        assert order[i..][1..] == order[i + 1..];
        Assoc(target, f, SerEntries(metadata, order[i + 1..]));
        target := target + f;
        i := i + 1;
      }
      assert order[i..] == [] && target + [] == target;
      Assoc(VarintField(8, asn), VarintField(16, node_id), SerEntries(metadata, order));
      assert front == VarintField(8, asn) + VarintField(16, node_id);
    }

    method ByteSizeLong(order: seq<u32>) returns (n: nat)
      requires Enumerates(order, metadata.Keys)
      ensures n == |SerHop(Value(), order)|
    {
      hide Varint;
      n := 1 * |order|;
      var i := 0;
      while i < |order|
        invariant 0 <= i <= |order|
        invariant n + |SerEntries(metadata, order[i..])| == |SerEntries(metadata, order)| + (|order| - i)
      {
        var key, value := order[i], metadata[order[i]];
        var entry := 1 + VarintSize(key) + 1 + VarintSize(|value|) + |value|;
        assert |SerEntry(key, value)| == entry;
        assert order[i..][1..] == order[i + 1..];
        n := n + VarintSize(entry) + entry;
        i := i + 1;
      }
      assert order[i..] == [];
      if asn != 0 {
        n := n + VarintSize(asn) + 1;
      }
      if node_id != 0 {
        n := n + VarintSize(node_id) + 1;
      }
    }
  }

  /** ByteSizeLong may walk the map in another order than the serializer: the size is the same. */
  lemma {:induction false} EntriesSize(m: map<u32, seq<byte>>, o1: seq<u32>, o2: seq<u32>)
    requires Enumerates(o1, set k | k in o2) && Enumerates(o2, set k | k in o2)
    requires forall k :: k in o2 ==> k in m
    ensures |SerEntries(m, o1)| == |SerEntries(m, o2)|
    decreases |o1|
  {
    if o1 == [] {
      if o2 != [] {
        SomeElement(o2);
        assert false;
      }
    } else {
      var k := o1[0];
      assert k in o2;
      var i :| 0 <= i < |o2| && o2[i] == k;
      var r1, r2 := o1[1..], o2[..i] + o2[i + 1..];
      EntriesWithout(m, o2, i);
      forall x ensures x in r1 <==> x in r2 {
        assert x in o1 <==> x == k || x in r1;
        assert x in o2 <==> x == k || x in r2;
        assert k !in r1 && k !in r2;
      }
      assert (set x | x in r1) == (set x | x in r2);
      EntriesSize(m, r1, r2);
    }
  }

  lemma SomeElement(o: seq<u32>)
    requires o != []
    ensures exists k :: k in o
  {
    assert o[0] in o;
  }

  lemma {:induction false} EntriesWithout(m: map<u32, seq<byte>>, o: seq<u32>, i: nat)
    requires i < |o| && forall k :: k in o ==> k in m
    ensures |SerEntries(m, o)|
         == |BytesField(26, SerEntry(o[i], m[o[i]]))| + |SerEntries(m, o[..i] + o[i + 1..])|
  {
    hide BytesField;
    hide SerEntry;
    if i == 0 {
      assert o[..0] + o[1..] == o[1..];
    } else {
      EntriesWithout(m, o[1..], i - 1);
      var r := o[..i] + o[i + 1..];
      assert r[0] == o[0] && r[1..] == o[1..][..i - 1] + o[1..][i..];
    }
  }

  lemma HopSizeAnyOrder(h: Hop, o1: seq<u32>, o2: seq<u32>)
    requires Enumerates(o1, h.metadata.Keys) && Enumerates(o2, h.metadata.Keys)
    ensures |SerHop(h, o1)| == |SerHop(h, o2)|
  {
    assert (set k | k in o2) == h.metadata.Keys;
    EntriesSize(h.metadata, o1, o2);
  }

  function HopValues(hops: seq<HopMessage>): (values: seq<Hop>)
    reads hops
    ensures |values| == |hops|
  {
    seq(|hops|, i requires 0 <= i < |hops| reads hops => hops[i].Value())
  }

  lemma MergeIntoNothing(h: Hop)
    ensures MergeHop(NO_HOP, h) == h
  {
    assert map[] + h.metadata == h.metadata;
  }

  class ReportMessage {
    var hops: seq<HopMessage>
    var packet_type: i32
    var truncated_packet: seq<byte>

    function Value(): Report
      reads this, hops
    {
      Report(HopValues(hops), packet_type, truncated_packet)
    }

    constructor ()
      ensures Value() == NO_REPORT && hops == []
    {
      hops, packet_type, truncated_packet := [], 0, [];
    }

    /** A new empty hop at the end of the list. */
    method AddHops() returns (h: HopMessage)
      modifies this`hops
      ensures fresh(h) && hops == old(hops) + [h] && h.Value() == NO_HOP
      ensures HopValues(hops) == old(HopValues(hops)) + [NO_HOP]
    {
      h := new HopMessage();
      hops := hops + [h];
    }

    method MergeFrom(from: Report)
      modifies this
      ensures Value() == MergeReport(old(Value()), from)
      ensures old(hops) <= hops && forall j :: |old(hops)| <= j < |hops| ==> fresh(hops[j])
    {
      var i := 0;
      while i < |from.hops|
        invariant 0 <= i <= |from.hops|
        invariant old(hops) <= hops && |hops| == |old(hops)| + i
        invariant forall j :: |old(hops)| <= j < |hops| ==> fresh(hops[j])
        invariant HopValues(hops) == old(HopValues(hops)) + from.hops[..i]
        invariant packet_type == old(packet_type) && truncated_packet == old(truncated_packet)
      {
        ghost var before := hops;
        var h := AddHops();
        h.MergeFrom(from.hops[i]);
        MergeIntoNothing(from.hops[i]);
        assert HopValues(hops) == HopValues(before) + [from.hops[i]];
        i := i + 1;
      }
      if from.truncated_packet != [] {
        truncated_packet := from.truncated_packet;
      }
      if from.packet_type != 0 {
        packet_type := from.packet_type;
      }
    }

    /** The bytes of a hop are parsed in place into a new one at the end of the list. */
    method InternalParse(data: seq<byte>) returns (ok: bool)
      modifies this
      ensures ok == ParseReport(old(Value()), data).Some?
      ensures ok ==> Some(Value()) == ParseReport(old(Value()), data)
      ensures old(hops) <= hops && forall j :: |old(hops)| <= j < |hops| ==> fresh(hops[j])
    {
      hide ParseHop;
      hide ReadTag;
      hide ReadBytes;
      hide ReadVarint64;
      hide EnumOf;
      var x := data;
      while x != []
        invariant old(hops) <= hops && forall j :: |old(hops)| <= j < |hops| ==> fresh(hops[j])
        invariant ParseReport(Value(), x) == ParseReport(old(Value()), data)
        decreases |x|
      {
        var t := ReadTag(x);
        if t.None? { return false; }
        var tag, y := t.value.0, t.value.1;
        if tag == 10 {
          var b := ReadBytes(y);
          if b.None? { return false; }
          ghost var before := hops;
          var h := AddHops();
          var parsed := h.InternalParse(b.value.0);
          if !parsed { return false; }
          assert HopValues(hops) == HopValues(before) + [h.Value()];
          x := b.value.1;
        } else if tag == 16 {
          var v := ReadVarint64(y);
          if v.None? { return false; }
          packet_type, x := EnumOf(v.value.0), v.value.1;
        } else if tag == 26 {
          var b := ReadBytes(y);
          if b.None? { return false; }
          truncated_packet, x := b.value.0, b.value.1;
        } else {
          return false;
        }
      }
      return true;
    }

    method InternalSerialize(orders: seq<seq<u32>>) returns (target: seq<byte>)
      requires Orders(HopValues(hops), orders)
      ensures target == SerReport(Value(), orders)
    {
      hide BytesField;
      hide SerHop;
      hide Enumerates;
      ghost var values := HopValues(hops);
      target := [];
      var i := 0;
      while i < |hops|
        invariant 0 <= i <= |hops| && Orders(values[i..], orders[i..])
        invariant SerHops(values, orders) == target + SerHops(values[i..], orders[i..])
      {
        var b := hops[i].InternalSerialize(orders[i]);
        var f := BytesField(10, b);
        assert values[i..][1..] == values[i + 1..] && orders[i..][1..] == orders[i + 1..];
        assert Orders(values[i + 1..], orders[i + 1..]);
        Assoc(target, f, SerHops(values[i + 1..], orders[i + 1..]));
        target := target + f;
        i := i + 1;
      }
      assert values[i..] == [] && target + [] == target;
      var f2 := VarintField(16, EnumBits(packet_type));
      var f3 := if truncated_packet == [] then [] else BytesField(26, truncated_packet);
      Assoc(target, f2, f3);
      target := target + f2;
      target := target + f3;
    }

    method ByteSizeLong(orders: seq<seq<u32>>) returns (n: nat)
      requires Orders(HopValues(hops), orders)
      ensures n == |SerReport(Value(), orders)|
    {
      hide Varint;
      hide SerHop;
      hide Enumerates;
      ghost var values := HopValues(hops);
      n := 1 * |hops|;
      var i := 0;
      while i < |hops|
        invariant 0 <= i <= |hops| && Orders(values[i..], orders[i..])
        invariant n + |SerHops(values[i..], orders[i..])| == |SerHops(values, orders)| + (|hops| - i)
      {
        var size := hops[i].ByteSizeLong(orders[i]);
        assert values[i..][1..] == values[i + 1..] && orders[i..][1..] == orders[i + 1..];
        assert Orders(values[i + 1..], orders[i + 1..]);
        n := n + VarintSize(size) + size;
        i := i + 1;
      }
      assert values[i..] == [];
      if truncated_packet != [] {
        n := n + 1 + VarintSize(|truncated_packet|) + |truncated_packet|;
      }
      if packet_type != 0 {
        n := n + 1 + VarintSize(EnumBits(packet_type));
      }
    }
  }
}
