/** IntSwitchParser: the packet grammar, the parser as a function, and the parser as the state
    machine of int_switch.p4, scionParser.p4 and intParser.p4. */
module Parser {
  import opened Bits
  import opened Headers

  const ETHERTYPE_IPV4: u16 := 0x0800
  const PROTO_UDP: byte := 0x11
  const SCION_PORT: u16 := 50000
  const NEXT_UDP_SCION: byte := 0x11
  const PATH_SCION: byte := 1
  const PATH_ONEHOP: byte := 2
  const INT_UDP_PORT: u16 := 12345
  const TYPE_MD: u4 := 1
  /** Sizes of the varbit fields, in bits. */
  const MAX_HOPS := 18144
  const MAX_STACK := 2080
  const MAX_PAYLOAD := 65040

  datatype Accepted = Accepted(hdr: Headers, rest: seq<byte>)

  //////////////////////////////////////////////////////////////////////
  // The grammar: which headers are valid, given the contents of earlier ones
  //////////////////////////////////////////////////////////////////////

  predicate OuterShape(o: Outer) {
    && o.ethernet.Some?
    && (o.ipv4.Some? <==> o.ethernet.value.etherType == ETHERTYPE_IPV4)
    && (o.udp.Some? <==> o.ipv4.Some? && o.ipv4.value.protocol == PROTO_UDP)
  }

  predicate ToScion(o: Outer) {
    o.udp.Some? && o.udp.value.dstPort == SCION_PORT
  }

  predicate RawOf(o: Option<seq<byte>>, present: bool, n: nat) {
    o.Some? == present && (present ==> |o.value| == n)
  }

  predicate HostShape(l: u2, h: Host) {
    && RawOf(h.first, l < 3, 4)
    && RawOf(h.second, l == 1 || l == 2, 4)
    && RawOf(h.third, l == 2, 4)
    && RawOf(h.wide, l == 3, 16)
  }

  predicate ScionShape(s: Scion) {
    s.common.Some? && s.addr.Some? && HostShape(s.common.value.dl, s.dst) && HostShape(s.common.value.sl, s.src)
  }

  /** Info fields present, by the select on seg1Len and seg2Len. */
  function InfoFields(m: PathMeta): nat {
    if m.seg1Len == 0 && m.seg2Len == 0 then 1 else if m.seg2Len == 0 then 2 else 3
  }

  function HopBytes(m: PathMeta): nat {
    12 * (m.seg0Len + m.seg1Len + m.seg2Len)
  }

  predicate PathShape(pathType: byte, p: Path) {
    if pathType == PATH_SCION then
      && p.meta.Some?
      && RawOf(p.info0, true, 8)
      && RawOf(p.info1, InfoFields(p.meta.value) >= 2, 8)
      && RawOf(p.info2, InfoFields(p.meta.value) == 3, 8)
      && RawOf(p.hops, true, HopBytes(p.meta.value))
    else
      && pathType == PATH_ONEHOP
      && p.meta == None && p.info1 == None && p.info2 == None
      && RawOf(p.info0, true, 8)
      && RawOf(p.hops, true, 24)
  }

  predicate InnerShape(nextHdr: byte, i: Inner) {
    && (i.udp.Some? <==> nextHdr == NEXT_UDP_SCION)
    && (i.shim.Some? <==> i.udp.Some? && i.udp.value.dstPort == INT_UDP_PORT)
    && (i.md.Some? <==> i.shim.Some? && i.shim.value.kind == TYPE_MD)
  }

  predicate HasStack(i: Inner) {
    i.md.Some? && i.shim.Some? && i.shim.value.length != 3
  }

  /** (bit<32>)length - 3, times 32, in 32-bit arithmetic. */
  function StackBits(length: byte): nat {
    (length - 3) * 32 % 0x1_0000_0000
  }

  /** The varbit length of the payload, in 32-bit arithmetic. */
  function PayloadBits(payloadLen: u16, stackBits: nat): nat {
    var bits := (payloadLen * 8 - 192 - stackBits) % 0x1_0000_0000;
    bits - bits % 8
  }

  predicate StackShape(i: Inner, payloadLen: u16, s: IntStack, payload: Option<seq<byte>>) {
    && s == NO_STACK.(pre := s.pre)
    && s.pre.Some? == payload.Some? == HasStack(i)
    && (s.pre.Some? ==>
          && StackBits(i.shim.value.length) == 8 * |s.pre.value| <= MAX_STACK
          && PayloadBits(payloadLen, 8 * |s.pre.value|) == 8 * |payload.value| <= MAX_PAYLOAD)
  }

  predicate Shape(h: Headers) {
    && OuterShape(h.outer)
    && h.cpu == None
    && if ToScion(h.outer) then
         && ScionShape(h.scion)
         && PathShape(h.scion.common.value.pathType, h.path)
         && InnerShape(h.scion.common.value.nextHdr, h.inner)
         && StackShape(h.inner, h.scion.common.value.payloadLen, h.stack, h.payload)
       else
         h.scion == NO_SCION && h.path == NO_PATH && h.inner == NO_INNER && h.stack == NO_STACK && h.payload == None
  }

  /** What is known of the headers extracted before an error in any state: those up to the inner UDP header are all
      there if that one is, and what follows it came out in order. */
  predicate Extracted(h: Headers) {
    && h.cpu == None
    && (h.inner.udp.Some? ==>
          && OuterShape(h.outer) && ToScion(h.outer) && ScionShape(h.scion)
          && PathShape(h.scion.common.value.pathType, h.path)
          && h.scion.common.value.nextHdr == NEXT_UDP_SCION)
    && InnerExtracted(h.inner)
    && StackExtracted(h.inner, h.stack)
    && (h.payload.Some? ==> h.stack.pre.Some?)
  }

  predicate InnerExtracted(i: Inner) {
    && (i.shim.Some? ==> i.udp.Some? && i.udp.value.dstPort == INT_UDP_PORT)
    && (i.md.Some? ==> i.shim.Some? && i.shim.value.kind == TYPE_MD)
  }

  predicate StackExtracted(i: Inner, s: IntStack) {
    && s == NO_STACK.(pre := s.pre)
    && (s.pre.Some? ==> HasStack(i) && StackBits(i.shim.value.length) == 8 * |s.pre.value| <= MAX_STACK)
  }

  //////////////////////////////////////////////////////////////////////
  // The parser as a function; None is the reject state
  //////////////////////////////////////////////////////////////////////

  function ParseOuter(x: seq<byte>): (r: Option<(Outer, seq<byte>)>)
    ensures r.Some? ==> OuterShape(r.value.0) && r.value.0.Bytes() + r.value.1 == x
  {
    if |x| < 14 then None else
    var eth := ReadEthernet(x[..14]);
    if eth.etherType != ETHERTYPE_IPV4 then Some((Outer(Some(eth), None, None), x[14..])) else
    if |x| < 34 then None else
    var ip := ReadIpv4(x[14..34]);
    if ip.protocol != PROTO_UDP then Some((Outer(Some(eth), Some(ip), None), x[34..])) else
    if |x| < 42 then None else
    Some((Outer(Some(eth), Some(ip), Some(ReadUdp(x[34..42]))), x[42..]))
  }

  lemma ParseOuterOf(o: Outer, r: seq<byte>)
    requires OuterShape(o)
    ensures ParseOuter(o.Bytes() + r) == Some((o, r))
  {
    hide Ethernet.Bytes;
    hide Ipv4.Bytes;
    hide Udp.Bytes;
    hide ReadEthernet;
    hide ReadIpv4;
    hide ReadUdp;
    var x := o.Bytes() + r;
    var eth := o.ethernet.value;
    assert x[..14] == eth.Bytes();
    ReadEthernetBytes(eth);
    if o.ipv4.Some? {
      assert x[14..34] == o.ipv4.value.Bytes();
      ReadIpv4Bytes(o.ipv4.value);
      if o.udp.Some? {
        assert x[34..42] == o.udp.value.Bytes();
        ReadUdpBytes(o.udp.value);
        assert x[42..] == r;
      } else {
        assert x[34..] == r;
      }
    } else {
      assert x[14..] == r;
    }
  }

  function ParseHost(l: u2, x: seq<byte>): (r: Option<(Host, seq<byte>)>)
    ensures r.Some? ==> HostShape(l, r.value.0) && r.value.0.Bytes() + r.value.1 == x
  {
    if |x| < 4 * (l + 1) then None else
    var h := if l == 3 then Host(None, None, None, Some(x[..16]))
             else Host(Some(x[..4]), if l >= 1 then Some(x[4..8]) else None,
                       if l == 2 then Some(x[8..12]) else None, None);
    assert h.Bytes() == x[..4 * (l + 1)];
    Some((h, x[4 * (l + 1)..]))
  }

  lemma ParseHostOf(l: u2, h: Host, r: seq<byte>)
    requires HostShape(l, h)
    ensures |h.Bytes()| == 4 * (l + 1)
    ensures ParseHost(l, h.Bytes() + r) == Some((h, r))
  {
    var x := h.Bytes() + r;
    assert x[4 * (l + 1)..] == r;
    if l == 3 {
      assert x[..16] == h.wide.value;
    } else {
      assert x[..4] == h.first.value;
      if l >= 1 {
        assert x[4..8] == h.second.value;
      }
      if l == 2 {
        assert x[8..12] == h.third.value;
      }
    }
  }

  lemma Regroup(a: seq<byte>, b: seq<byte>, c: seq<byte>, d: seq<byte>, e: seq<byte>)
    ensures a + b + c + d + e == a + (b + (c + (d + e)))
  {
  }

  function ParseScion(x: seq<byte>): (r: Option<(Scion, seq<byte>)>)
    ensures r.Some? ==> ScionShape(r.value.0)
  {
    if |x| < 28 then None else
    var common, addr := ReadScionCommon(x[..12]), ReadAddrCommon(x[12..28]);
    var dst := ParseHost(common.dl, x[28..]);
    if dst.None? then None else
    var src := ParseHost(common.sl, dst.value.1);
    if src.None? then None else
    Some((Scion(Some(common), Some(addr), dst.value.0, src.value.0), src.value.1))
  }

  lemma ParseScionSound(x: seq<byte>)
    requires ParseScion(x).Some?
    ensures ParseScion(x).value.0.Bytes() + ParseScion(x).value.1 == x
  {
    hide Host.Bytes;
    hide ParseHost;
    hide HostShape;
    hide ReadScionCommon;
    hide ReadAddrCommon;
    var (s, rest) := ParseScion(x).value;
    Regroup(x[..12], x[12..28], s.dst.Bytes(), s.src.Bytes(), rest);
    assert x == x[..12] + (x[12..28] + x[28..]);
  }

  lemma ParseScionOf(s: Scion, r: seq<byte>)
    requires ScionShape(s)
    ensures ParseScion(s.Bytes() + r) == Some((s, r))
  {
    hide ScionCommon.Bytes;
    hide AddrCommon.Bytes;
    hide Host.Bytes;
    hide HostShape;
    hide ParseHost;
    hide ReadScionCommon;
    hide ReadAddrCommon;
    var x := s.Bytes() + r;
    var c, a := s.common.value, s.addr.value;
    Regroup(c.Bytes(), a.Bytes(), s.dst.Bytes(), s.src.Bytes(), r);
    assert x[..12] == c.Bytes() && x[12..28] == a.Bytes();
    assert x[28..] == s.dst.Bytes() + (s.src.Bytes() + r);
    ReadScionCommonBytes(c);
    ReadAddrCommonBytes(a);
    ParseHostOf(c.dl, s.dst, s.src.Bytes() + r);
    ParseHostOf(c.sl, s.src, r);
  }

  /** Info and hop fields after the path meta header, or alone in a one-hop path. */
  function ParseInfosAndHops(meta: Option<PathMeta>, infos: nat, hopBytes: nat, x: seq<byte>)
    : (r: Option<(Path, seq<byte>)>)
    requires 1 <= infos <= 3
  {
    var n := 8 * infos;
    if |x| < n + hopBytes || 8 * hopBytes > MAX_HOPS then None else
    Some((Path(meta, Some(x[..8]), if infos >= 2 then Some(x[8..16]) else None,
               if infos == 3 then Some(x[16..24]) else None, Some(x[n..n + hopBytes])), x[n + hopBytes..]))
  }

  lemma InfosAndHopsSound(meta: Option<PathMeta>, infos: nat, hopBytes: nat, x: seq<byte>)
    requires 1 <= infos <= 3
    ensures var r := ParseInfosAndHops(meta, infos, hopBytes, x);
      r.Some? ==>
        && PathTail(r.value.0, r.value.1) == x
        && r.value.0.meta == meta
        && RawOf(r.value.0.info0, true, 8) && RawOf(r.value.0.info1, infos >= 2, 8)
        && RawOf(r.value.0.info2, infos == 3, 8) && RawOf(r.value.0.hops, true, hopBytes)
  {
    var n := 8 * infos;
    if |x| >= n + hopBytes {
      CutInThree(x, n, n + hopBytes);
      Infos(x, infos);
    }
  }

  lemma Infos(x: seq<byte>, infos: nat)
    requires 1 <= infos <= 3 && |x| >= 8 * infos
    ensures x[..8] + (if infos >= 2 then x[8..16] else []) + (if infos == 3 then x[16..24] else []) == x[..8 * infos]
  {
    if infos == 3 {
      CutInThree(x[..24], 8, 16);
    }
  }

  lemma CutInThree(x: seq<byte>, i: nat, j: nat)
    requires i <= j <= |x|
    ensures [] + x[..i] + x[i..j] + x[j..] == x && x[..i] + x[i..j] + x[j..] == x
  {
  }

  function PathTail(p: Path, r: seq<byte>): seq<byte> {
    Raw(p.info0) + Raw(p.info1) + Raw(p.info2) + Raw(p.hops) + r
  }

  lemma PathBytesTail(p: Path, r: seq<byte>)
    ensures p.Bytes() + r == (if p.meta.Some? then p.meta.value.Bytes() else []) + PathTail(p, r)
  {
    var m := if p.meta.Some? then p.meta.value.Bytes() else [];
    var a, b, c, d := Raw(p.info0), Raw(p.info1), Raw(p.info2), Raw(p.hops);
    assert m + a + b + c + d + r == m + (a + b + c + d + r);
  }

  function ParsePath(pathType: byte, x: seq<byte>): Option<(Path, seq<byte>)> {
    if pathType == PATH_SCION then
      if |x| < 4 then None else
      var m := ReadPathMeta(x[..4]);
      ParseInfosAndHops(Some(m), InfoFields(m), HopBytes(m), x[4..])
    else if pathType == PATH_ONEHOP then
      ParseInfosAndHops(None, 1, 24, x)
    else
      None
  }

  lemma ParsePathSound(pathType: byte, x: seq<byte>)
    requires ParsePath(pathType, x).Some?
    ensures var (p, rest) := ParsePath(pathType, x).value;
      PathShape(pathType, p) && p.Bytes() + rest == x
  {
    hide ParseInfosAndHops;
    hide Path.Bytes;
    hide PathTail;
    hide ReadPathMeta;
    var (p, rest) := ParsePath(pathType, x).value;
    PathBytesTail(p, rest);
    if pathType == PATH_SCION {
      var m := ReadPathMeta(x[..4]);
      InfosAndHopsSound(Some(m), InfoFields(m), HopBytes(m), x[4..]);
      assert x == x[..4] + x[4..];
    } else {
      InfosAndHopsSound(None, 1, 24, x);
      assert [] + x == x;
    }
  }

  lemma ParseInfosAndHopsOf(p: Path, infos: nat, hopBytes: nat, r: seq<byte>)
    requires 1 <= infos <= 3 && 8 * hopBytes <= MAX_HOPS
    requires RawOf(p.info0, true, 8) && RawOf(p.info1, infos >= 2, 8) && RawOf(p.info2, infos == 3, 8)
    requires RawOf(p.hops, true, hopBytes)
    ensures ParseInfosAndHops(p.meta, infos, hopBytes, PathTail(p, r)) == Some((p, r))
  {
    var n := 8 * infos;
    var front := Raw(p.info0) + Raw(p.info1) + Raw(p.info2);
    var x := front + Raw(p.hops) + r;
    assert |front| == n;
    assert x[..8] == p.info0.value;
    if infos >= 2 {
      assert x[8..16] == p.info1.value;
    }
    if infos == 3 {
      assert x[16..24] == p.info2.value;
    }
    assert x[n..n + hopBytes] == p.hops.value;
    assert x[n + hopBytes..] == r;
  }

  /** Three 6-bit segment lengths never overflow the hop field. */
  lemma HopsFit(m: PathMeta)
    ensures 8 * HopBytes(m) <= MAX_HOPS
  {
  }

  lemma ParsePathOf(pathType: byte, p: Path, r: seq<byte>)
    requires PathShape(pathType, p)
    ensures ParsePath(pathType, p.Bytes() + r) == Some((p, r))
  {
    PathBytesTail(p, r);
    if pathType == PATH_SCION {
      var m := p.meta.value;
      var x := p.Bytes() + r;
      assert x[..4] == m.Bytes() && x[4..] == PathTail(p, r);
      ReadPathMetaBytes(m);
      ParseInfosAndHopsOf(p, InfoFields(m), HopBytes(m), r);
    } else {
      assert [] + PathTail(p, r) == PathTail(p, r);
      ParseInfosAndHopsOf(p, 1, 24, r);
    }
  }

  function ParseInner(nextHdr: byte, x: seq<byte>): (r: Option<(Inner, seq<byte>)>)
    ensures r.Some? ==> InnerShape(nextHdr, r.value.0) && r.value.0.Bytes() + r.value.1 == x
  {
    if nextHdr != NEXT_UDP_SCION then Some((NO_INNER, x)) else
    if |x| < 8 then None else
    var udp := ReadUdp(x[..8]);
    if udp.dstPort != INT_UDP_PORT then Some((Inner(Some(udp), None, None), x[8..])) else
    if |x| < 12 then None else
    var shim := ReadIntShim(x[8..12]);
    if shim.kind != TYPE_MD then Some((Inner(Some(udp), Some(shim), None), x[12..])) else
    if |x| < 24 then None else
    Some((Inner(Some(udp), Some(shim), Some(ReadIntMd(x[12..24]))), x[24..]))
  }

  lemma ParseInnerOf(nextHdr: byte, i: Inner, r: seq<byte>)
    requires InnerShape(nextHdr, i)
    ensures ParseInner(nextHdr, i.Bytes() + r) == Some((i, r))
  {
    hide Udp.Bytes;
    hide IntShim.Bytes;
    hide IntMd.Bytes;
    hide ReadUdp;
    hide ReadIntShim;
    hide ReadIntMd;
    var x := i.Bytes() + r;
    if i.udp.Some? {
      assert x[..8] == i.udp.value.Bytes();
      ReadUdpBytes(i.udp.value);
      if i.shim.Some? {
        assert x[8..12] == i.shim.value.Bytes();
        ReadIntShimBytes(i.shim.value);
        if i.md.Some? {
          assert x[12..24] == i.md.value.Bytes();
          ReadIntMdBytes(i.md.value);
          assert x[24..] == r;
        } else {
          assert x[12..] == r;
        }
      } else {
        assert x[8..] == r;
      }
    } else {
      assert x == r;
    }
  }

  /** The INT stack and, when there is one, the payload. */
  function ParseStack(i: Inner, payloadLen: u16, x: seq<byte>): Option<(IntStack, Option<seq<byte>>, seq<byte>)> {
    if !HasStack(i) then Some((NO_STACK, None, x)) else
    var bits := StackBits(i.shim.value.length);
    var n := bits / 8;
    if bits > MAX_STACK || |x| < n then None else
    var payloadBits := PayloadBits(payloadLen, bits);
    var m := payloadBits / 8;
    if payloadBits > MAX_PAYLOAD || |x| < n + m then None else
    Some((NO_STACK.(pre := Some(x[..n])), Some(x[n..n + m]), x[n + m..]))
  }

  lemma ParseStackSound(i: Inner, payloadLen: u16, x: seq<byte>)
    requires ParseStack(i, payloadLen, x).Some?
    ensures var (s, payload, rest) := ParseStack(i, payloadLen, x).value;
      StackShape(i, payloadLen, s, payload) && s.Bytes() + Raw(payload) + rest == x
  {
    var (s, payload, rest) := ParseStack(i, payloadLen, x).value;
    if HasStack(i) {
      CutInThree(x, |s.pre.value|, |s.pre.value| + |payload.value|);
      hide PayloadBits;
      PreOnly(s);
    }
  }

  lemma PreOnly(s: IntStack)
    requires s == NO_STACK.(pre := s.pre) && s.pre.Some?
    ensures s.Bytes() == s.pre.value
  {
  }

  lemma ParseStackOf(i: Inner, payloadLen: u16, s: IntStack, payload: Option<seq<byte>>, r: seq<byte>)
    requires StackShape(i, payloadLen, s, payload)
    ensures ParseStack(i, payloadLen, s.Bytes() + Raw(payload) + r) == Some((s, payload, r))
  {
    var x := s.Bytes() + Raw(payload) + r;
    if s.pre.Some? {
      var n, m := |s.pre.value|, |payload.value|;
      assert x[..n] == s.pre.value && x[n..n + m] == payload.value && x[n + m..] == r;
    } else {
      assert x == r;
    }
  }

  //////////////////////////////////////////////////////////////////////
  // Errors: what was extracted before, and the bytes from there on
  //////////////////////////////////////////////////////////////////////

  function OuterSoFar(x: seq<byte>): (r: (Outer, seq<byte>))
    requires ParseOuter(x).None?
    ensures r.0.Bytes() + r.1 == x
  {
    if |x| < 14 then (NO_OUTER, x) else
    var eth := ReadEthernet(x[..14]);
    if |x| < 34 then (Outer(Some(eth), None, None), x[14..]) else
    (Outer(Some(eth), Some(ReadIpv4(x[14..34])), None), x[34..])
  }

  function HostSoFar(l: u2, x: seq<byte>): (r: (Host, seq<byte>))
    requires ParseHost(l, x).None?
    ensures r.0.Bytes() + r.1 == x
  {
    if l == 3 || |x| < 4 then (NO_HOST, x) else
    if |x| < 8 then (NO_HOST.(first := Some(x[..4])), x[4..]) else
    assert x[..4] + x[4..8] + x[8..] == x;
    (NO_HOST.(first := Some(x[..4]), second := Some(x[4..8])), x[8..])
  }

  function ScionSoFar(x: seq<byte>): (Scion, seq<byte>)
    requires ParseScion(x).None?
  {
    if |x| < 12 then (NO_SCION, x) else
    var common := ReadScionCommon(x[..12]);
    if |x| < 28 then (NO_SCION.(common := Some(common)), x[12..]) else
    var s := NO_SCION.(common := Some(common), addr := Some(ReadAddrCommon(x[12..28])));
    var dst := ParseHost(common.dl, x[28..]);
    if dst.None? then
      var d := HostSoFar(common.dl, x[28..]);
      (s.(dst := d.0), d.1)
    else
      var d := HostSoFar(common.sl, dst.value.1);
      (s.(dst := dst.value.0, src := d.0), d.1)
  }

  lemma ScionSoFarSound(x: seq<byte>)
    requires ParseScion(x).None?
    ensures ScionSoFar(x).0.Bytes() + ScionSoFar(x).1 == x
  {
    hide ParseHost;
    hide HostSoFar;
    hide HostShape;
    hide ReadScionCommon;
    hide ReadAddrCommon;
    var (s, rest) := ScionSoFar(x);
    NoHostBytes();
    hide Host.Bytes;
    if |x| >= 28 {
      Regroup(x[..12], x[12..28], s.dst.Bytes(), s.src.Bytes(), rest);
      assert x == x[..12] + (x[12..28] + x[28..]);
      assert [] + rest == rest;
    }
  }

  lemma NoHostBytes()
    ensures NO_HOST.Bytes() == []
  {
  }

  function InfosSoFar(meta: Option<PathMeta>, infos: nat, x: seq<byte>): (Path, seq<byte>)
    requires 1 <= infos <= 3
  {
    var p := NO_PATH.(meta := meta);
    if |x| < 8 then (p, x) else
    if infos == 1 || |x| < 16 then (p.(info0 := Some(x[..8])), x[8..]) else
    if infos == 2 || |x| < 24 then (p.(info0 := Some(x[..8]), info1 := Some(x[8..16])), x[16..]) else
    (p.(info0 := Some(x[..8]), info1 := Some(x[8..16]), info2 := Some(x[16..24])), x[24..])
  }

  lemma InfosSoFarSound(meta: Option<PathMeta>, infos: nat, x: seq<byte>)
    requires 1 <= infos <= 3
    ensures InfosSoFar(meta, infos, x).0.meta == meta
    ensures PathTail(InfosSoFar(meta, infos, x).0, InfosSoFar(meta, infos, x).1) == x
  {
    var (p, rest) := InfosSoFar(meta, infos, x);
    if p.info0.Some? {
      var n := if p.info1.None? then 1 else if p.info2.None? then 2 else 3;
      Infos(x, n);
      assert x == x[..8 * n] + [] + x[8 * n..];
    } else {
      assert [] + [] + [] + [] + x == x;
    }
  }

  function PathSoFar(pathType: byte, x: seq<byte>): (Path, seq<byte>)
    requires ParsePath(pathType, x).None?
  {
    if pathType == PATH_SCION then
      if |x| < 4 then (NO_PATH, x) else
      var m := ReadPathMeta(x[..4]);
      InfosSoFar(Some(m), InfoFields(m), x[4..])
    else if pathType == PATH_ONEHOP then
      InfosSoFar(None, 1, x)
    else
      (NO_PATH, x)
  }

  lemma PathSoFarSound(pathType: byte, x: seq<byte>)
    requires ParsePath(pathType, x).None?
    ensures PathSoFar(pathType, x).0.Bytes() + PathSoFar(pathType, x).1 == x
  {
    NoPathBytes();
    hide Path.Bytes;
    hide PathTail;
    hide ReadPathMeta;
    hide InfosSoFar;
    var (p, rest) := PathSoFar(pathType, x);
    PathBytesTail(p, rest);
    assert [] + x == x;
    if pathType == PATH_SCION {
      if |x| >= 4 {
        var m := ReadPathMeta(x[..4]);
        InfosSoFarSound(Some(m), InfoFields(m), x[4..]);
        assert x == x[..4] + x[4..];
      }
    } else {
      InfosSoFarSound(None, 1, x);
    }
  }

  function InnerSoFar(nextHdr: byte, x: seq<byte>): (r: (Inner, seq<byte>))
    requires ParseInner(nextHdr, x).None?
    ensures nextHdr == NEXT_UDP_SCION && InnerExtracted(r.0) && r.0.md.None? && r.0.Bytes() + r.1 == x
  {
    if |x| < 8 then (NO_INNER, x) else
    var udp := ReadUdp(x[..8]);
    if |x| < 12 then (Inner(Some(udp), None, None), x[8..]) else
    (Inner(Some(udp), Some(ReadIntShim(x[8..12])), None), x[12..])
  }

  /** The stack without the payload, or neither. */
  function StackSoFar(i: Inner, x: seq<byte>): (IntStack, seq<byte>)
    requires HasStack(i)
  {
    var bits := StackBits(i.shim.value.length);
    if bits > MAX_STACK || |x| < bits / 8 then (NO_STACK, x) else (NO_STACK.(pre := Some(x[..bits / 8])), x[bits / 8..])
  }

  /** What a target does with a packet after an error in the parser: it discards the packet, or goes on with the
      headers extracted so far, as v1model does. */
  datatype Target = Discards | Continues

  function Stopped(tg: Target, h: Headers, rest: seq<byte>): Option<Accepted> {
    if tg.Discards? then None else Some(Accepted(h, rest))
  }

  function StackReceived(tg: Target, i: Inner, payloadLen: u16, x: seq<byte>)
    : Option<(IntStack, Option<seq<byte>>, seq<byte>)>
  {
    var r := ParseStack(i, payloadLen, x);
    if r.Some? || tg.Discards? then r else
    var t := StackSoFar(i, x);
    Some((t.0, None, t.1))
  }

  lemma StackReceivedSound(tg: Target, i: Inner, payloadLen: u16, x: seq<byte>)
    requires StackReceived(tg, i, payloadLen, x).Some?
    ensures var (s, payload, rest) := StackReceived(tg, i, payloadLen, x).value;
      && StackExtracted(i, s) && (payload.Some? ==> s.pre.Some?) && s.Bytes() + Raw(payload) + rest == x
      && (tg.Discards? ==> StackShape(i, payloadLen, s, payload))
  {
    var (s, payload, rest) := StackReceived(tg, i, payloadLen, x).value;
    if ParseStack(i, payloadLen, x).Some? {
      ParseStackSound(i, payloadLen, x);
    } else {
      hide PayloadBits;
      if s.pre.Some? {
        PreOnly(s);
        assert s.pre.value + [] + rest == x;
      }
    }
  }

  /** Behind a stack that fits, the payload comes out exactly if its length fits and its bytes are there. */
  lemma StackThenPayload(tg: Target, i: Inner, payloadLen: u16, a: seq<byte>, b: seq<byte>)
    requires HasStack(i) && StackBits(i.shim.value.length) == 8 * |a| <= MAX_STACK
    ensures var bits := PayloadBits(payloadLen, 8 * |a|);
      StackReceived(tg, i, payloadLen, a + b) ==
      if bits <= MAX_PAYLOAD && bits / 8 <= |b| then
        Some((NO_STACK.(pre := Some(a)), Some(b[..bits / 8]), b[bits / 8..]))
      else if tg.Discards? then None else Some((NO_STACK.(pre := Some(a)), None, b))
  {
    hide StackBits;
    var bits := PayloadBits(payloadLen, 8 * |a|);
    hide PayloadBits;
    var x, n := a + b, |a|;
    assert x[..n] == a && x[n..] == b;
    if bits / 8 <= |b| {
      assert x[n..n + bits / 8] == b[..bits / 8] && x[n + bits / 8..] == b[bits / 8..];
    }
  }

  /** A stack comes out exactly if its length fits the varbit field and its bytes are there. */
  lemma StackClaims(tg: Target, i: Inner, payloadLen: u16, x: seq<byte>)
    requires i.md.Some? && i.shim.Some? && StackReceived(tg, i, payloadLen, x).Some?
    ensures var s, len := StackReceived(tg, i, payloadLen, x).value.0, i.shim.value.length;
      if 3 < len <= 68 && 4 * (len - 3) <= |x| then s == NO_STACK.(pre := Some(x[..4 * (len - 3)])) else s == NO_STACK
  {
    hide PayloadBits;
    var len: int := i.shim.value.length;
    if len > 3 {
      assert StackBits(len) == 32 * (len - 3);
    } else if len < 3 {
      assert StackBits(len) > MAX_STACK;
    }
    hide StackBits;
  }

  /** States scion, path, udp_scion_state, int_shim and get_payload. */
  function ParseBody(tg: Target, o: Outer, x: seq<byte>): (r: Option<Accepted>)
    ensures tg.Continues? ==> r.Some?
  {
    var h := NO_HEADERS.(outer := o);
    var s := ParseScion(x);
    if s.None? then Stopped(tg, h.(scion := ScionSoFar(x).0), ScionSoFar(x).1) else
    ParsePathOn(tg, h.(scion := s.value.0), s.value.1)
  }

  /** From state path on. */
  function ParsePathOn(tg: Target, h: Headers, x: seq<byte>): (r: Option<Accepted>)
    requires h.scion.common.Some?
    ensures tg.Continues? ==> r.Some?
  {
    var pathType := h.scion.common.value.pathType;
    var p := ParsePath(pathType, x);
    if p.None? then Stopped(tg, h.(path := PathSoFar(pathType, x).0), PathSoFar(pathType, x).1) else
    ParseInnerOn(tg, h.(path := p.value.0), p.value.1)
  }

  /** From state udp_scion_state on. */
  function ParseInnerOn(tg: Target, h: Headers, x: seq<byte>): (r: Option<Accepted>)
    requires h.scion.common.Some?
    ensures tg.Continues? ==> r.Some?
  {
    var common := h.scion.common.value;
    var i := ParseInner(common.nextHdr, x);
    if i.None? then Stopped(tg, h.(inner := InnerSoFar(common.nextHdr, x).0), InnerSoFar(common.nextHdr, x).1) else
    var t := StackReceived(tg, i.value.0, common.payloadLen, i.value.1);
    if t.None? then None else
    Some(Accepted(h.(inner := i.value.0, stack := t.value.0, payload := t.value.1), t.value.2))
  }

  /** The headers and the unparsed rest that the controls see. A target that continues sees some of every packet. */
  function Received(tg: Target, x: seq<byte>): (r: Option<Accepted>)
    ensures tg.Continues? ==> r.Some?
  {
    var o := ParseOuter(x);
    if o.None? then Stopped(tg, NO_HEADERS.(outer := OuterSoFar(x).0), OuterSoFar(x).1) else
    if !ToScion(o.value.0) then Some(Accepted(NO_HEADERS.(outer := o.value.0), o.value.1)) else
    ParseBody(tg, o.value.0, o.value.1)
  }

  /** The packets the parser accepts. */
  function Parse(x: seq<byte>): Option<Accepted> {
    Received(Discards, x)
  }

  /** On accepted packets all targets agree. */
  lemma AcceptedIsReceived(tg: Target, x: seq<byte>)
    requires Parse(x).Some?
    ensures Received(tg, x) == Parse(x)
  {
    hide ParseOuter;
    hide ParseScion;
    hide ParsePath;
    hide ParseInner;
    hide ParseStack;
  }

  //////////////////////////////////////////////////////////////////////
  // The parser and the grammar agree
  //////////////////////////////////////////////////////////////////////

  /** Every accepted packet has the grammar's shape, and deparsing it gives back the input. */
  lemma ParseThenDeparse(x: seq<byte>)
    requires Parse(x).Some?
    ensures Shape(Parse(x).value.hdr)
    ensures Parse(x).value.hdr.Deparse() + Parse(x).value.rest == x
  {
    hide Received;
    hide Headers.Deparse;
    ReceivedThenDeparse(Discards, x);
  }

  /** Deparsing loses no byte of any packet, whatever error stopped the parser and wherever. */
  lemma ReceivedThenDeparse(tg: Target, x: seq<byte>)
    requires Received(tg, x).Some?
    ensures Extracted(Received(tg, x).value.hdr)
    ensures tg.Discards? ==> Shape(Received(tg, x).value.hdr)
    ensures Received(tg, x).value.hdr.Deparse() + Received(tg, x).value.rest == x
  {
    hide ParseOuter;
    hide OuterSoFar;
    hide ParseBody;
    hide Headers.Deparse;
    hide Outer.Bytes;
    var r := Received(tg, x).value;
    var o := ParseOuter(x);
    if o.None? || !ToScion(o.value.0) {
      NothingAfterOuter(r.hdr, r.rest);
    } else {
      BodySound(tg, o.value.0, o.value.1);
      DeparseGroups(r.hdr, r.rest);
    }
  }

  /** The bytes from the path on, in the order in which they are parsed. */
  function FromPath(r: Accepted): seq<byte> {
    r.hdr.path.Bytes() + FromInner(r)
  }

  function FromInner(r: Accepted): seq<byte> {
    r.hdr.inner.Bytes() + (r.hdr.stack.Bytes() + Raw(r.hdr.payload) + r.rest)
  }

  lemma BodySound(tg: Target, o: Outer, x: seq<byte>)
    requires OuterShape(o) && ToScion(o) && ParseBody(tg, o, x).Some?
    ensures var r := ParseBody(tg, o, x).value;
      && r.hdr.outer == o && Extracted(r.hdr) && (tg.Discards? ==> Shape(r.hdr))
      && r.hdr.scion.Bytes() + FromPath(r) == x
  {
    hide ParseScion;
    hide ScionSoFar;
    hide ParsePathOn;
    hide OuterShape;
    hide HostShape;
    hide PathShape;
    hide FromPath;
    hide Scion.Bytes;
    if ParseScion(x).None? {
      ScionSoFarSound(x);
      NothingAfterScion(ParseBody(tg, o, x).value);
    } else {
      ParseScionSound(x);
      PathOnSound(tg, NO_HEADERS.(outer := o, scion := ParseScion(x).value.0), ParseScion(x).value.1);
    }
  }

  lemma PathOnSound(tg: Target, h: Headers, x: seq<byte>)
    requires OuterShape(h.outer) && ToScion(h.outer) && ScionShape(h.scion)
    requires h.scion.common.Some? && h == NO_HEADERS.(outer := h.outer, scion := h.scion)
    requires ParsePathOn(tg, h, x).Some?
    ensures var r := ParsePathOn(tg, h, x).value;
      && r.hdr.outer == h.outer && r.hdr.scion == h.scion
      && Extracted(r.hdr) && (tg.Discards? ==> Shape(r.hdr)) && FromPath(r) == x
  {
    hide ParsePath;
    hide PathSoFar;
    hide ParseInnerOn;
    hide OuterShape;
    hide HostShape;
    hide PathShape;
    hide FromInner;
    hide Path.Bytes;
    var pathType := h.scion.common.value.pathType;
    if ParsePath(pathType, x).None? {
      PathSoFarSound(pathType, x);
      NothingAfterPath(ParsePathOn(tg, h, x).value);
    } else {
      ParsePathSound(pathType, x);
      InnerOnSound(tg, h.(path := ParsePath(pathType, x).value.0), ParsePath(pathType, x).value.1);
    }
  }

  lemma InnerOnSound(tg: Target, h: Headers, x: seq<byte>)
    requires OuterShape(h.outer) && ToScion(h.outer) && ScionShape(h.scion)
    requires PathShape(h.scion.common.value.pathType, h.path)
    requires h == NO_HEADERS.(outer := h.outer, scion := h.scion, path := h.path) && ParseInnerOn(tg, h, x).Some?
    ensures var r := ParseInnerOn(tg, h, x).value;
      && r.hdr.outer == h.outer && r.hdr.scion == h.scion && r.hdr.path == h.path
      && Extracted(r.hdr) && (tg.Discards? ==> Shape(r.hdr)) && FromInner(r) == x
  {
    hide ParseInner;
    hide InnerSoFar;
    hide StackReceived;
    hide OuterShape;
    hide HostShape;
    hide PathShape;
    hide StackShape;
    hide StackExtracted;
    hide Inner.Bytes;
    hide IntStack.Bytes;
    var common := h.scion.common.value;
    var r := ParseInnerOn(tg, h, x).value;
    if ParseInner(common.nextHdr, x).None? {
      NothingAfterInner(r.rest);
      StackExtractedNone(r.hdr.inner);
    } else {
      var (i, y) := ParseInner(common.nextHdr, x).value;
      StackReceivedSound(tg, i, common.payloadLen, y);
    }
  }

  lemma StackExtractedNone(i: Inner)
    ensures StackExtracted(i, NO_STACK)
  {
  }

  lemma NothingAfterInner(rest: seq<byte>)
    ensures NO_STACK.Bytes() + Raw(None) + rest == rest
  {
  }

  lemma NothingAfterPath(r: Accepted)
    requires r.hdr.inner == NO_INNER && r.hdr.stack == NO_STACK && r.hdr.payload == None
    ensures FromInner(r) == r.rest
  {
    assert [] + r.rest == r.rest;
  }

  lemma NothingAfterScion(r: Accepted)
    requires r.hdr.path == NO_PATH && r.hdr.inner == NO_INNER && r.hdr.stack == NO_STACK && r.hdr.payload == None
    ensures FromPath(r) == r.rest
  {
    NothingAfterPath(r);
    NoPathBytes();
    assert [] + r.rest == r.rest;
  }

  lemma NothingAfterOuter(h: Headers, rest: seq<byte>)
    requires h.cpu == None && h.scion == NO_SCION && h.path == NO_PATH && h.inner == NO_INNER
    requires h.stack == NO_STACK && h.payload == None
    ensures h.Deparse() + rest == h.outer.Bytes() + rest
  {
    assert h.FromScion() == [];
  }

  /** Deparsing, regrouped from the front as the parser consumes it. */
  lemma DeparseGroups(h: Headers, rest: seq<byte>)
    requires h.cpu == None
    ensures h.Deparse() + rest
         == h.outer.Bytes() + (h.scion.Bytes() + (h.path.Bytes() + (h.inner.Bytes()
                                                                    + (h.stack.Bytes() + Raw(h.payload) + rest))))
  {
    RegroupAll(h.outer.Bytes(), h.scion.Bytes(), h.path.Bytes(), h.inner.Bytes(), h.stack.Bytes(), Raw(h.payload),
               rest);
  }

  lemma RegroupAll(o: seq<byte>, s: seq<byte>, p: seq<byte>, i: seq<byte>, t: seq<byte>, y: seq<byte>, r: seq<byte>)
    ensures o + [] + (s + p + i + t + y) + r == o + (s + (p + (i + (t + y + r))))
  {
    assert s + p + i + t + y + r == s + (p + (i + (t + y + r)));
    assert o + [] + (s + p + i + t + y) + r == o + (s + p + i + t + y + r);
  }

  /** Parsing reaches the inner UDP header with the headers before it, whatever bytes follow them. */
  lemma ParseUpToInner(tg: Target, h: Headers, tail: seq<byte>)
    requires OuterShape(h.outer) && ToScion(h.outer) && h.cpu == None && ScionShape(h.scion)
    requires PathShape(h.scion.common.value.pathType, h.path)
    ensures Received(tg, h.outer.Bytes() + (h.scion.Bytes() + (h.path.Bytes() + tail)))
         == ParseInnerOn(tg, NO_HEADERS.(outer := h.outer, scion := h.scion, path := h.path), tail)
  {
    hide ParseOuter;
    hide ParseScion;
    hide ParsePath;
    hide ParseInnerOn;
    hide OuterShape;
    hide PathShape;
    hide HostShape;
    hide Outer.Bytes;
    hide Scion.Bytes;
    hide Path.Bytes;
    var x2 := h.path.Bytes() + tail;
    ParseOuterOf(h.outer, h.scion.Bytes() + x2);
    ParseScionOf(h.scion, x2);
    ParsePathOf(h.scion.common.value.pathType, h.path, tail);
  }

  /** Parsing reaches the INT stack with the headers before it, whatever bytes follow them. */
  lemma ParseUpToStack(tg: Target, h: Headers, tail: seq<byte>)
    requires OuterShape(h.outer) && ToScion(h.outer) && h.cpu == None && ScionShape(h.scion)
    requires PathShape(h.scion.common.value.pathType, h.path)
    requires InnerShape(h.scion.common.value.nextHdr, h.inner)
    ensures Received(tg, h.outer.Bytes() + (h.scion.Bytes() + (h.path.Bytes() + (h.inner.Bytes() + tail))))
         == var t := StackReceived(tg, h.inner, h.scion.common.value.payloadLen, tail);
            if t.None? then None else Some(Accepted(h.(stack := t.value.0, payload := t.value.1), t.value.2))
  {
    hide Received;
    hide ParseInner;
    hide StackReceived;
    hide OuterShape;
    hide PathShape;
    hide HostShape;
    hide InnerShape;
    hide Inner.Bytes;
    ParseUpToInner(tg, h, h.inner.Bytes() + tail);
    ParseInnerOf(h.scion.common.value.nextHdr, h.inner, tail);
  }

  /** The stack and the payload of a received packet are what comes out of the bytes behind its MD header. */
  lemma StackOfReceived(tg: Target, x: seq<byte>)
    requires Received(tg, x).Some? && Received(tg, x).value.hdr.inner.md.Some?
    ensures var p := Received(tg, x).value;
      && p.hdr.scion.common.Some?
      && StackReceived(tg, p.hdr.inner, p.hdr.scion.common.value.payloadLen,
                       p.hdr.stack.Bytes() + Raw(p.hdr.payload) + p.rest) == Some((p.hdr.stack, p.hdr.payload, p.rest))
  {
    ReceivedThenDeparse(tg, x);
    hide Received;
    hide StackReceived;
    hide OuterShape;
    hide PathShape;
    hide Headers.Deparse;
    hide Outer.Bytes;
    hide Scion.Bytes;
    hide Path.Bytes;
    hide Inner.Bytes;
    hide IntStack.Bytes;
    var p := Received(tg, x).value;
    DeparseGroups(p.hdr, p.rest);
    ParseUpToStack(tg, p.hdr, p.hdr.stack.Bytes() + Raw(p.hdr.payload) + p.rest);
  }

  /** Every header stack of that shape parses back to itself, whatever follows. */
  lemma DeparseThenParse(h: Headers, rest: seq<byte>)
    requires Shape(h)
    ensures Parse(h.Deparse() + rest) == Some(Accepted(h, rest))
  {
    hide ParseOuter;
    hide ParseBody;
    hide ParseStack;
    hide OuterShape;
    hide PathShape;
    hide InnerShape;
    hide StackShape;
    hide Headers.Deparse;
    hide Outer.Bytes;
    hide Scion.Bytes;
    hide Path.Bytes;
    hide Inner.Bytes;
    hide IntStack.Bytes;
    DeparseGroups(h, rest);
    if ToScion(h.outer) {
      ParseUpToStack(Discards, h, h.stack.Bytes() + Raw(h.payload) + rest);
      ParseStackOf(h.inner, h.scion.common.value.payloadLen, h.stack, h.payload, rest);
    } else {
      NothingAfterOuter(h, rest);
      ParseOuterOf(h.outer, rest);
    }
  }

  /** The grammar is unambiguous: at most one header stack explains a packet. */
  lemma Unambiguous(h1: Headers, r1: seq<byte>, h2: Headers, r2: seq<byte>)
    requires Shape(h1) && Shape(h2)
    requires h1.Deparse() + r1 == h2.Deparse() + r2
    ensures h1 == h2 && r1 == r2
  {
    DeparseThenParse(h1, r1);
    DeparseThenParse(h2, r2);
  }

  //////////////////////////////////////////////////////////////////////
  // Sizes
  //////////////////////////////////////////////////////////////////////

  lemma ScionLength(s: Scion)
    requires ScionShape(s)
    ensures |s.Bytes()| == 28 + 4 * (s.common.value.dl + 1) + 4 * (s.common.value.sl + 1)
  {
    ParseHostOf(s.common.value.dl, s.dst, []);
    ParseHostOf(s.common.value.sl, s.src, []);
  }

  lemma PathLength(pathType: byte, p: Path)
    requires PathShape(pathType, p)
    ensures |p.Bytes()| <= 2296
    ensures pathType == PATH_ONEHOP ==> |p.Bytes()| == 32
    ensures pathType == PATH_SCION ==> |p.Bytes()| == 4 + 8 * InfoFields(p.meta.value) + HopBytes(p.meta.value)
  {
  }

  /** The byte count the parser keeps for the CPU copy: everything from scion_common through int_md. */
  function CpuHdrLen(h: Headers): (n: u64)
    requires Extracted(h) && h.inner.shim.Some?
    ensures n == |h.ScionToMd()| && n <= 2380
  {
    HeaderBytes(h);
    |h.ScionToMd()|
  }

  /** 12 + 16 bytes, two host addresses, the path, and at most 24 bytes of UDP, shim and MD header. */
  lemma HeaderBytes(h: Headers)
    requires Extracted(h) && h.inner.shim.Some?
    ensures |h.ScionToMd()| <= 2380
    ensures var c := h.scion.common.value;
      |h.ScionToMd()| == 36 + 4 * (c.dl + c.sl) + |h.path.Bytes()| + |h.inner.Bytes()|
    ensures |h.inner.Bytes()| == if h.inner.md.Some? then 24 else 12
  {
    hide PathShape;
    hide Path.Bytes;
    ScionLength(h.scion);
    PathLength(h.scion.common.value.pathType, h.path);
  }

  lemma NoPathBytes()
    ensures NO_PATH.Bytes() == []
  {
  }
}
