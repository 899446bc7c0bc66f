/** Where the headers are, told from the bytes of the packet alone: a second description of the parser, by offsets
    (RFC 791 and RFC 768 for the outer headers, the SCION header specification, and headers/int.p4). */
module RawPacket {
  import opened Bits
  import opened Headers
  import opened Parser

  //////////////////////////////////////////////////////////////////////
  // Numbers in a packet
  //////////////////////////////////////////////////////////////////////

  function U16At(x: seq<byte>, i: nat): (v: nat)
    requires i + 2 <= |x|
    ensures v < 0x1_0000
  {
    x[i] as int * 256 + x[i + 1]
  }

  function U32At(x: seq<byte>, i: nat): nat
    requires i + 4 <= |x|
  {
    U16At(x, i) * 0x1_0000 + U16At(x, i + 2)
  }

  function U48At(x: seq<byte>, i: nat): nat
    requires i + 6 <= |x|
  {
    U32At(x, i) * 0x1_0000 + U16At(x, i + 4)
  }

  lemma Num1(b: seq<byte>)
    requires |b| == 1
    ensures NatOf(b) == b[0]
  {
    assert NatOf(b[..0]) == 0;
  }

  lemma Num2(b: seq<byte>)
    requires |b| == 2
    ensures NatOf(b) == U16At(b, 0)
  {
    Num1(b[..1]);
  }

  lemma Num3(b: seq<byte>)
    requires |b| == 3
    ensures NatOf(b) == U16At(b, 0) * 256 + b[2]
  {
    Num2(b[..2]);
  }

  lemma Num4(b: seq<byte>)
    requires |b| == 4
    ensures NatOf(b) == U32At(b, 0)
  {
    Num3(b[..3]);
  }

  lemma Num6(b: seq<byte>)
    requires |b| == 6
    ensures NatOf(b) == U48At(b, 0)
  {
    Num4(b[..4]);
    assert b[..5][..4] == b[..4];
  }

  //////////////////////////////////////////////////////////////////////
  // Every header, field by field
  //////////////////////////////////////////////////////////////////////

  lemma EthernetLayout(b: seq<byte>)
    requires |b| == 14
    ensures ReadEthernet(b) == Ethernet(U48At(b, 0), U48At(b, 6), U16At(b, 12))
  {
    Num6(b[0..6]);
    Num6(b[6..12]);
    Num2(b[12..14]);
  }

  lemma Ipv4Layout(b: seq<byte>)
    requires |b| == 20
    ensures ReadIpv4(b) == Ipv4(b[0], b[1], U16At(b, 2), U16At(b, 4), U16At(b, 6), b[8], b[9], U16At(b, 10),
                                U32At(b, 12), U32At(b, 16))
  {
    Num1(b[0..1]);
    Num1(b[1..2]);
    Num2(b[2..4]);
    Num2(b[4..6]);
    Num2(b[6..8]);
    Num1(b[8..9]);
    Num1(b[9..10]);
    Num2(b[10..12]);
    Num4(b[12..16]);
    Num4(b[16..20]);
  }

  lemma UdpLayout(b: seq<byte>)
    requires |b| == 8
    ensures ReadUdp(b) == Udp(U16At(b, 0), U16At(b, 2), U16At(b, 4), U16At(b, 6))
  {
    Num2(b[0..2]);
    Num2(b[2..4]);
    Num2(b[4..6]);
    Num2(b[6..8]);
  }

  lemma ScionCommonLayout(b: seq<byte>)
    requires |b| == 12
    ensures var h := ReadScionCommon(b);
      && h.version == b[0] / 16 && h.qos == b[0] % 16 * 16 + b[1] / 16
      && h.flowID == b[1] % 16 * 0x1_0000 + U16At(b, 2)
      && h.nextHdr == b[4] && h.hdrLen == b[5] && h.payloadLen == U16At(b, 6) && h.pathType == b[8]
      && h.dt == b[9] / 64 && h.dl == b[9] / 16 % 4 && h.st == b[9] / 4 % 4 && h.sl == b[9] % 4
      && h.rsv == U16At(b, 10)
  {
    Num4(b[0..4]);
    FirstWordSplit(b[0], b[1], U16At(b, 2));
    Num1(b[4..5]);
    Num1(b[5..6]);
    Num2(b[6..8]);
    Num1(b[8..9]);
    Num1(b[9..10]);
    Num2(b[10..12]);
  }

  lemma FirstWordSplit(a: byte, b: byte, c: u16)
    ensures var w := (a as int * 256 + b) * 0x1_0000 + c;
      && w / 0x10_0000 / 256 == a / 16 && w / 0x10_0000 % 256 == a % 16 * 16 + b / 16
      && w % 0x10_0000 == b % 16 * 0x1_0000 + c
  {
    var w := (a as int * 256 + b) * 0x1_0000 + c;
    assert w / 0x10_0000 == a as int * 16 + b / 16;
  }

  lemma AddrCommonLayout(b: seq<byte>)
    requires |b| == 16
    ensures ReadAddrCommon(b) == AddrCommon(U16At(b, 0), U48At(b, 2), U16At(b, 8), U48At(b, 10))
  {
    Num2(b[0..2]);
    Num6(b[2..8]);
    Num2(b[8..10]);
    Num6(b[10..16]);
  }

  /** currInf and currHF, six reserved bits, and three segment lengths of six bits. */
  lemma PathMetaLayout(b: seq<byte>)
    requires |b| == 4
    ensures ReadPathMeta(b) == PathMeta(b[0], b[1] / 4, b[1] % 4 * 16 + b[2] / 16, b[2] % 16 * 4 + b[3] / 64, b[3] % 64)
  {
    Num1(b[0..1]);
    Num3(b[1..4]);
    SegsSplitBytes(b[1], b[2], b[3]);
  }

  lemma SegsSplitBytes(a: byte, b: byte, c: byte)
    ensures var s := (a as int * 256 + b) * 256 + c;
      && s / 64 / 64 / 64 == a / 4 && s / 64 / 64 % 64 == a % 4 * 16 + b / 16
      && s / 64 % 64 == b % 16 * 4 + c / 64 && s % 64 == c % 64
  {
    var s := (a as int * 256 + b) * 256 + c;
    assert s / 64 == a as int * 1024 + b as int * 4 + c / 64;
    assert s / 64 / 64 == a as int * 16 + b / 16;
  }

  lemma IntShimLayout(b: seq<byte>)
    requires |b| == 4
    ensures ReadIntShim(b) == IntShim(b[0] / 16, b[0] / 4 % 4, b[0] % 4, b[1], U16At(b, 2))
  {
    Num1(b[0..1]);
    Num1(b[1..2]);
    Num2(b[2..4]);
  }

  lemma IntMdLayout(b: seq<byte>)
    requires |b| == 12
    ensures var w := U16At(b, 0) * 256 + b[2];
      ReadIntMd(b) == IntMd(b[0] / 16, b[0] / 8 % 2, b[0] / 4 % 2, b[0] / 2 % 2, w / 32 % 4096, b[2] % 32,
                            b[3], U16At(b, 4), U16At(b, 6), U16At(b, 8), U16At(b, 10))
  {
    Num3(b[0..3]);
    Num1(b[3..4]);
    Num2(b[4..6]);
    Num2(b[6..8]);
    Num2(b[8..10]);
    Num2(b[10..12]);
    FlagsSplit(b[0], b[1], b[2]);
  }

  lemma FlagsSplit(a: byte, b: byte, c: byte)
    ensures var f := (a as int * 256 + b) * 256 + c;
      f / 32 / 4096 / 2 / 2 / 2 == a / 16 && f / 32 / 4096 / 2 / 2 % 2 == a / 8 % 2
      && f / 32 / 4096 / 2 % 2 == a / 4 % 2 && f / 32 / 4096 % 2 == a / 2 % 2 && f % 32 == c % 32
  {
    var f := (a as int * 256 + b) * 256 + c;
    assert f / 32 / 4096 == a / 2 && f % 32 == c % 32;
  }

  //////////////////////////////////////////////////////////////////////
  // Which headers a packet has, and where
  //////////////////////////////////////////////////////////////////////

  predicate HasIpv4(x: seq<byte>) {
    |x| >= 34 && U16At(x, 12) == 0x0800
  }

  predicate HasUdp(x: seq<byte>) {
    HasIpv4(x) && |x| >= 42 && x[23] == 17
  }

  predicate IsScion(x: seq<byte>) {
    HasUdp(x) && U16At(x, 36) == 50000
  }

  /** Bytes of a host address: one to four words of 32 bits. */
  function DstSize(x: seq<byte>): nat
    requires |x| >= 54
  {
    4 * (x[51] as int / 16 % 4 + 1)
  }

  function SrcSize(x: seq<byte>): nat
    requires |x| >= 54
  {
    4 * (x[51] as int % 4 + 1)
  }

  /** Where the path starts. */
  function PathAt(x: seq<byte>): nat
    requires |x| >= 54
  {
    70 + DstSize(x) + SrcSize(x)
  }

  predicate HasHosts(x: seq<byte>) {
    IsScion(x) && |x| >= 70 && |x| >= PathAt(x)
  }

  /** The number and the sizes of the fields of the path can be told: its type is known, and a meta header is there if
      it needs one. */
  predicate TellsPath(x: seq<byte>) {
    HasHosts(x) && (x[50] == 2 || (x[50] == 1 && |x| >= PathAt(x) + 4))
  }

  function Seg0(x: seq<byte>): nat
    requires TellsPath(x) && x[50] == 1
  {
    x[PathAt(x) + 1] as int % 4 * 16 + x[PathAt(x) + 2] / 16
  }

  function Seg1(x: seq<byte>): nat
    requires TellsPath(x) && x[50] == 1
  {
    x[PathAt(x) + 2] as int % 16 * 4 + x[PathAt(x) + 3] / 64
  }

  function Seg2(x: seq<byte>): nat
    requires TellsPath(x) && x[50] == 1
  {
    x[PathAt(x) + 3] as int % 64
  }

  /** Info fields that the parser takes: one without a second and third segment, two without a third, else three. */
  function Infos(x: seq<byte>): nat
    requires TellsPath(x)
  {
    if x[50] == 1 && Seg2(x) != 0 then 3 else if x[50] == 1 && Seg1(x) != 0 then 2 else 1
  }

  /** Where the hop fields start: behind the meta header of a SCION path and the info fields. */
  function HopFieldsAt(x: seq<byte>): nat
    requires TellsPath(x)
  {
    PathAt(x) + (if x[50] == 1 then 4 else 0) + 8 * Infos(x)
  }

  /** What follows the path: hop fields of 12 bytes each, two of them in a one-hop path. */
  function InnerAt(x: seq<byte>): nat
    requires TellsPath(x)
  {
    HopFieldsAt(x) + if x[50] == 1 then 12 * (Seg0(x) + Seg1(x) + Seg2(x)) else 24
  }

  predicate HasPath(x: seq<byte>) {
    TellsPath(x) && |x| >= InnerAt(x)
  }

  predicate HasInner(x: seq<byte>) {
    HasPath(x) && x[46] == 17 && |x| >= InnerAt(x) + 8
  }

  predicate HasShim(x: seq<byte>) {
    HasInner(x) && U16At(x, InnerAt(x) + 2) == 12345 && |x| >= InnerAt(x) + 12
  }

  predicate HasMd(x: seq<byte>) {
    HasShim(x) && x[InnerAt(x) + 8] / 16 == 1 && |x| >= InnerAt(x) + 24
  }

  //////////////////////////////////////////////////////////////////////
  // The parser, stage by stage
  //////////////////////////////////////////////////////////////////////

  lemma OuterStage(x: seq<byte>)
    ensures var o := if ParseOuter(x).Some? then ParseOuter(x).value.0 else OuterSoFar(x).0;
      && o.ethernet == (if |x| >= 14 then Some(ReadEthernet(x[..14])) else None)
      && o.ipv4 == (if HasIpv4(x) then Some(ReadIpv4(x[14..34])) else None)
      && o.udp == (if HasUdp(x) then Some(ReadUdp(x[34..42])) else None)
    ensures ParseOuter(x).Some? <==>
            |x| >= 14 && (U16At(x, 12) == 0x0800 ==> |x| >= 34 && (x[23] == 17 ==> |x| >= 42))
    ensures ParseOuter(x).Some? ==> (ToScion(ParseOuter(x).value.0) <==> IsScion(x))
    ensures IsScion(x) ==> ParseOuter(x).Some? && ParseOuter(x).value.1 == x[42..]
  {
    if |x| >= 14 {
      EthernetLayout(x[..14]);
    }
    if |x| >= 34 {
      Ipv4Layout(x[14..34]);
    }
    if |x| >= 42 {
      UdpLayout(x[34..42]);
    }
    hide ReadEthernet;
    hide ReadIpv4;
    hide ReadUdp;
    hide Outer.Bytes;
  }

  /** The SCION and address headers at the beginning of y. */
  lemma ScionStage(y: seq<byte>)
    ensures var s := if ParseScion(y).Some? then ParseScion(y).value.0 else ScionSoFar(y).0;
      && s.common == (if |y| >= 12 then Some(ReadScionCommon(y[..12])) else None)
      && s.addr == (if |y| >= 28 then Some(ReadAddrCommon(y[12..28])) else None)
    ensures |y| < 28 ==> ParseScion(y).None?
  {
    hide ReadScionCommon;
    hide ReadAddrCommon;
    hide ParseHost;
    hide HostSoFar;
    hide ScionShape;
  }

  /** The host addresses behind them. */
  lemma HostsStage(y: seq<byte>)
    requires |y| >= 28
    ensures var c := ReadScionCommon(y[..12]);
      var d, e := 4 * (c.dl as int + 1), 4 * (c.sl as int + 1);
      && (ParseScion(y).Some? <==> |y| >= 28 + d + e)
      && (ParseScion(y).Some? ==>
            && ParseScion(y).value.0.dst.Bytes() == y[28..28 + d]
            && ParseScion(y).value.0.src.Bytes() == y[28 + d..28 + d + e]
            && ParseScion(y).value.1 == y[28 + d + e..])
  {
    hide ReadScionCommon;
    hide ReadAddrCommon;
    hide ParseHost;
    hide Host.Bytes;
    hide ScionShape;
    var c := ReadScionCommon(y[..12]);
    var d, e := 4 * (c.dl as int + 1), 4 * (c.sl as int + 1);
    HostStage(c.dl, y[28..]);
    if |y| >= 28 + d {
      HostStage(c.sl, y[28..][d..]);
      TwoSlices(y, d, e);
    }
  }

  lemma TwoSlices(y: seq<byte>, d: nat, e: nat)
    requires |y| >= 28 + d
    ensures var u := y[28..][d..];
      && y[28..][..d] == y[28..28 + d]
      && (|y| >= 28 + d + e ==> u[..e] == y[28 + d..28 + d + e] && u[e..] == y[28 + d + e..])
  {
  }

  lemma HostStage(l: u2, y: seq<byte>)
    ensures ParseHost(l, y).Some? <==> |y| >= 4 * (l as int + 1)
    ensures ParseHost(l, y).Some? ==>
              ParseHost(l, y).value.1 == y[4 * (l as int + 1)..]
              && ParseHost(l, y).value.0.Bytes() == y[..4 * (l as int + 1)]
  {
    if ParseHost(l, y).Some? {
      var (h, rest) := ParseHost(l, y).value;
      assert rest == y[4 * (l as int + 1)..];
      assert |h.Bytes()| == 4 * (l as int + 1);
      assert y[..|h.Bytes()|] == h.Bytes();
    }
  }

  /** Info fields of a SCION path, by its second and third segment length. */
  function InfoCount(seg1: nat, seg2: nat): nat {
    if seg2 != 0 then 3 else if seg1 != 0 then 2 else 1
  }

  /** Info fields and hop fields at the beginning of y. */
  predicate FieldsOf(p: Path, y: seq<byte>, infos: nat, hops: nat) {
    && 1 <= infos <= 3 && |y| >= 8 * infos + hops
    && p.info0 == Some(y[..8]) && p.info1 == (if infos >= 2 then Some(y[8..16]) else None)
    && p.info2 == (if infos == 3 then Some(y[16..24]) else None)
    && p.hops == Some(y[8 * infos..8 * infos + hops])
  }

  lemma PathStage(pathType: byte, y: seq<byte>)
    ensures pathType !in {1, 2} ==> ParsePath(pathType, y).None?
    ensures pathType == 2 ==> (ParsePath(2, y).Some? <==> |y| >= 32)
    ensures pathType == 2 && |y| >= 32 ==>
              var (p, rest) := ParsePath(2, y).value;
              p.meta == None && FieldsOf(p, y, 1, 24) && rest == y[32..]
    ensures pathType == 1 && |y| < 4 ==> ParsePath(1, y).None?
    ensures pathType == 1 && |y| >= 4 ==>
              var m := ReadPathMeta(y[..4]);
              var n := 8 * InfoCount(m.seg1Len, m.seg2Len);
              var k := 12 * (m.seg0Len + m.seg1Len + m.seg2Len);
              && (ParsePath(1, y).Some? <==> |y| >= 4 + n + k)
              && (|y| >= 4 + n + k ==>
                    var (p, rest) := ParsePath(1, y).value;
                    && p.meta == Some(m) && FieldsOf(p, y[4..], InfoCount(m.seg1Len, m.seg2Len), k)
                    && rest == y[4 + n + k..])
  {
    hide ReadPathMeta;
    if pathType == 1 && |y| >= 4 {
      var m := ReadPathMeta(y[..4]);
      HopsFit(m);
      var n, k := 8 * InfoCount(m.seg1Len, m.seg2Len), 12 * (m.seg0Len + m.seg1Len + m.seg2Len);
      if |y| >= 4 + n + k {
        assert y[4..][n + k..] == y[4 + n + k..];
      }
    }
  }

  lemma InnerStage(nextHdr: byte, y: seq<byte>)
    ensures var i := if ParseInner(nextHdr, y).Some? then ParseInner(nextHdr, y).value.0 else InnerSoFar(nextHdr, y).0;
      var udp := nextHdr == 17 && |y| >= 8;
      var shim := udp && |y| >= 12 && ReadUdp(y[..8]).dstPort == 12345;
      var md := shim && |y| >= 24 && ReadIntShim(y[8..12]).kind == 1;
      && i.udp == (if udp then Some(ReadUdp(y[..8])) else None)
      && i.shim == (if shim then Some(ReadIntShim(y[8..12])) else None)
      && i.md == (if md then Some(ReadIntMd(y[12..24])) else None)
    ensures ParseInner(nextHdr, y).Some? <==>
            (nextHdr == 17 ==> |y| >= 8 && (ReadUdp(y[..8]).dstPort == 12345 ==>
               |y| >= 12 && (ReadIntShim(y[8..12]).kind == 1 ==> |y| >= 24)))
    ensures ParseInner(nextHdr, y).Some? && ParseInner(nextHdr, y).value.0.md.Some? ==>
              ParseInner(nextHdr, y).value.1 == y[24..]
  {
    hide ReadUdp;
    hide ReadIntShim;
    hide ReadIntMd;
    hide Inner.Bytes;
  }

  //////////////////////////////////////////////////////////////////////
  // Whole packets
  //////////////////////////////////////////////////////////////////////

  /** What the controls get of any packet. */
  function HeadersOf(x: seq<byte>): Headers {
    Received(Continues, x).value.hdr
  }

  /** The outer headers of any packet. */
  lemma OuterRaw(x: seq<byte>)
    ensures var o := HeadersOf(x).outer;
      && o.ethernet == (if |x| >= 14 then Some(ReadEthernet(x[..14])) else None)
      && o.ipv4 == (if HasIpv4(x) then Some(ReadIpv4(x[14..34])) else None)
      && o.udp == (if HasUdp(x) then Some(ReadUdp(x[34..42])) else None)
    ensures !IsScion(x) ==> HeadersOf(x) == NO_HEADERS.(outer := HeadersOf(x).outer)
    ensures IsScion(x) ==> Received(Continues, x) == ParseBody(Continues, HeadersOf(x).outer, x[42..])
  {
    OuterStage(x);
    hide ParseOuter;
    hide OuterSoFar;
    hide ToScion;
    hide IsScion;
    hide HasIpv4;
    hide HasUdp;
    hide ReadEthernet;
    hide ReadIpv4;
    hide ReadUdp;
    if ParseOuter(x).Some? && ToScion(ParseOuter(x).value.0) {
      hide ParseScion;
      hide ParsePathOn;
      BodyOuter(ParseOuter(x).value.0, ParseOuter(x).value.1);
    }
  }

  lemma BodyOuter(o: Outer, y: seq<byte>)
    ensures ParseBody(Continues, o, y).value.hdr.outer == o
  {
    hide ParseScion;
    hide ScionSoFar;
    hide ParsePath;
    hide PathSoFar;
    hide ParseInner;
    hide InnerSoFar;
    hide StackReceived;
  }

  /** The headers behind the address header are not there. */
  predicate EndsWithHosts(h: Headers) {
    h.path == NO_PATH && EndsWithPath(h)
  }

  predicate EndsWithPath(h: Headers) {
    h.inner == NO_INNER && h.stack == NO_STACK && h.payload == None
  }

  /** Common header, address header and host addresses, from the bytes of the packet. */
  predicate ScionIs(s: Scion, x: seq<byte>)
    requires IsScion(x)
  {
    && s.common == (if |x| >= 54 then Some(ReadScionCommon(x[42..54])) else None)
    && s.addr == (if |x| >= 70 then Some(ReadAddrCommon(x[54..70])) else None)
    && (HasHosts(x) ==>
          s.dst.Bytes() == x[70..70 + DstSize(x)] && s.src.Bytes() == x[70 + DstSize(x)..PathAt(x)])
  }

  lemma ScionRaw(o: Outer, x: seq<byte>)
    requires IsScion(x)
    ensures var h := ParseBody(Continues, o, x[42..]).value.hdr;
      && h.outer == o && ScionIs(h.scion, x)
      && (HasHosts(x) ==>
            h.scion.common.Some? && ParseBody(Continues, o, x[42..])
               == ParsePathOn(Continues, NO_HEADERS.(outer := o, scion := h.scion), x[PathAt(x)..]))
      && (!HasHosts(x) ==> EndsWithHosts(h))
  {
    hide ReadScionCommon;
    hide ReadAddrCommon;
    hide ParseScion;
    hide ScionSoFar;
    hide ScionShape;
    hide Host.Bytes;
    hide ParsePathOn;
    var y := x[42..];
    BodyOuter(o, y);
    ScionStage(y);
    if |y| >= 28 {
      HostsStage(y);
    }
    if |x| >= 54 {
      assert y[..12] == x[42..54];
      ScionCommonLayout(x[42..54]);
    }
    if |x| >= 70 {
      assert y[12..28] == x[54..70];
    }
    if HasHosts(x) {
      HostSlices(x);
      PathOnKeeps(NO_HEADERS.(outer := o, scion := ParseScion(y).value.0), ParseScion(y).value.1);
    }
  }

  lemma HostSlices(x: seq<byte>)
    requires HasHosts(x)
    ensures var y, d, e := x[42..], DstSize(x), SrcSize(x);
      && y[28..28 + d] == x[70..70 + d] && y[28 + d..28 + d + e] == x[70 + d..PathAt(x)]
      && y[28 + d + e..] == x[PathAt(x)..]
  {
  }

  lemma PathOnKeeps(h: Headers, y: seq<byte>)
    requires h.scion.common.Some?
    ensures var g := ParsePathOn(Continues, h, y).value.hdr;
      g.outer == h.outer && g.scion == h.scion
  {
    hide ParsePath;
    hide PathSoFar;
    hide ParseInner;
    hide InnerSoFar;
    hide StackReceived;
  }

  lemma InnerOnKeeps(h: Headers, y: seq<byte>)
    requires h.scion.common.Some?
    ensures var g := ParseInnerOn(Continues, h, y).value.hdr;
      g.outer == h.outer && g.scion == h.scion && g.path == h.path
  {
    hide ParseInner;
    hide InnerSoFar;
    hide StackReceived;
  }

  /** The fields of a path that is there as a whole, from the bytes of the packet. */
  predicate PathIs(p: Path, x: seq<byte>)
    requires HasPath(x)
  {
    && p.meta == (if x[50] == 1 then Some(ReadPathMeta(x[PathAt(x)..PathAt(x) + 4])) else None)
    && FieldsOf(p, x[HopFieldsAt(x) - 8 * Infos(x)..], Infos(x), InnerAt(x) - HopFieldsAt(x))
  }

  lemma PathParses(x: seq<byte>)
    requires HasHosts(x)
    ensures var r := ParsePath(x[50], x[PathAt(x)..]);
      && (r.Some? <==> HasPath(x))
      && (HasPath(x) ==> PathIs(r.value.0, x) && r.value.1 == x[InnerAt(x)..])
  {
    hide ReadPathMeta;
    hide ParsePath;
    var y := x[PathAt(x)..];
    PathStage(x[50], y);
    if TellsPath(x) {
      PathSlices(x);
      if x[50] == 1 {
        PathMetaLayout(x[PathAt(x)..PathAt(x) + 4]);
      }
    }
  }

  lemma PathSlices(x: seq<byte>)
    requires TellsPath(x)
    ensures var y := x[PathAt(x)..];
      && (x[50] == 1 ==> y[..4] == x[PathAt(x)..PathAt(x) + 4] && y[4..] == x[PathAt(x) + 4..])
      && (|x| >= InnerAt(x) ==> y[InnerAt(x) - PathAt(x)..] == x[InnerAt(x)..])
  {
  }

  lemma PathRaw(g: Headers, x: seq<byte>)
    requires HasHosts(x) && g == NO_HEADERS.(outer := g.outer, scion := g.scion)
    requires g.scion.common.Some? && g.scion.common.value.pathType == x[50]
    ensures var h := ParsePathOn(Continues, g, x[PathAt(x)..]).value.hdr;
      && h.outer == g.outer && h.scion == g.scion
      && (HasPath(x) ==>
            PathIs(h.path, x) && ParsePathOn(Continues, g, x[PathAt(x)..])
               == ParseInnerOn(Continues, g.(path := h.path), x[InnerAt(x)..]))
      && (!HasPath(x) ==> EndsWithPath(h))
  {
    hide ParsePath;
    hide PathSoFar;
    hide ParseInnerOn;
    hide PathIs;
    PathOnKeeps(g, x[PathAt(x)..]);
    PathParses(x);
    hide HasPath;
    hide InnerAt;
    hide PathAt;
    if HasPath(x) {
      InnerOnKeeps(g.(path := ParsePath(x[50], x[PathAt(x)..]).value.0), x[InnerAt(x)..]);
    }
  }

  /** Inner UDP, shim and MD header, from the bytes of the packet. */
  predicate InnerIs(i: Inner, x: seq<byte>)
    requires HasPath(x)
  {
    var at := InnerAt(x);
    && i.udp == (if HasInner(x) then Some(ReadUdp(x[at..at + 8])) else None)
    && i.shim == (if HasShim(x) then Some(ReadIntShim(x[at + 8..at + 12])) else None)
    && i.md == (if HasMd(x) then Some(ReadIntMd(x[at + 12..at + 24])) else None)
  }

  lemma InnerParses(x: seq<byte>)
    requires HasPath(x)
    ensures var r := ParseInner(x[46], x[InnerAt(x)..]);
      InnerIs(if r.Some? then r.value.0 else InnerSoFar(x[46], x[InnerAt(x)..]).0, x)
  {
    hide ReadUdp;
    hide ReadIntShim;
    hide ReadIntMd;
    hide ParseInner;
    hide InnerSoFar;
    hide HasPath;
    hide U16At;
    hide InnerAt;
    InsideOfPath(x);
    hide TellsPath;
    InnerStage(x[46], x[InnerAt(x)..]);
    InnerSlices(x, InnerAt(x));
  }

  lemma InnerSlices(x: seq<byte>, at: nat)
    requires at <= |x|
    ensures |x| >= at + 8 ==>
              x[at..][..8] == x[at..at + 8] && ReadUdp(x[at..at + 8]).dstPort == U16At(x, at + 2)
    ensures |x| >= at + 12 ==>
              x[at..][8..12] == x[at + 8..at + 12] && ReadIntShim(x[at + 8..at + 12]).kind == x[at + 8] / 16
    ensures |x| >= at + 24 ==> x[at..][12..24] == x[at + 12..at + 24]
  {
    if |x| >= at + 8 {
      assert x[at..][..8] == x[at..at + 8];
      UdpLayout(x[at..at + 8]);
    }
    if |x| >= at + 12 {
      assert x[at..][8..12] == x[at + 8..at + 12];
      IntShimLayout(x[at + 8..at + 12]);
    }
    if |x| >= at + 24 {
      assert x[at..][12..24] == x[at + 12..at + 24];
    }
  }

  lemma InsideOfPath(x: seq<byte>)
    requires HasPath(x)
    ensures IsScion(x) && TellsPath(x) && |x| >= 70 && InnerAt(x) <= |x|
  {
  }

  lemma InnerRaw(g: Headers, x: seq<byte>)
    requires HasPath(x) && g.scion.common.Some? && g.scion.common.value.nextHdr == x[46]
    ensures var h := ParseInnerOn(Continues, g, x[InnerAt(x)..]).value.hdr;
      h.outer == g.outer && h.scion == g.scion && h.path == g.path && InnerIs(h.inner, x)
  {
    hide ParseInner;
    hide InnerSoFar;
    hide StackReceived;
    hide InnerIs;
    InnerOnKeeps(g, x[InnerAt(x)..]);
    InnerParses(x);
    hide HasPath;
    hide InnerAt;
  }

  /** The headers of any packet, whatever it holds and wherever it ends, are the ones at these offsets. */
  lemma HeadersRaw(x: seq<byte>)
    ensures var h := HeadersOf(x);
      && h.outer.ethernet == (if |x| >= 14 then Some(ReadEthernet(x[..14])) else None)
      && h.outer.ipv4 == (if HasIpv4(x) then Some(ReadIpv4(x[14..34])) else None)
      && h.outer.udp == (if HasUdp(x) then Some(ReadUdp(x[34..42])) else None)
      && (if IsScion(x) then ScionIs(h.scion, x) else h.scion == NO_SCION)
      && (HasPath(x) ==> PathIs(h.path, x))
      && (if HasPath(x) then InnerIs(h.inner, x) else h.inner == NO_INNER)
  {
    hide ReadEthernet;
    hide ReadIpv4;
    hide ReadUdp;
    hide ParseBody;
    hide ParsePathOn;
    hide ParseInnerOn;
    hide PathIs;
    hide InnerIs;
    OuterRaw(x);
    hide Received;
    if IsScion(x) {
      var o := HeadersOf(x).outer;
      ScionRaw(o, x);
      if HasHosts(x) {
        var g := NO_HEADERS.(outer := o, scion := HeadersOf(x).scion);
        CommonBytes(x);
        PathRaw(g, x);
        if HasPath(x) {
          InnerRaw(g.(path := HeadersOf(x).path), x);
        }
      }
    }
  }

  lemma CommonBytes(x: seq<byte>)
    requires |x| >= 54
    ensures ReadScionCommon(x[42..54]).pathType == x[50] && ReadScionCommon(x[42..54]).nextHdr == x[46]
  {
    ScionCommonLayout(x[42..54]);
  }

  //////////////////////////////////////////////////////////////////////
  // Which packets are accepted
  //////////////////////////////////////////////////////////////////////

  /** A stack of at most 65 words, and a payload of at most 8130 bytes whose size is what is left of the SCION payload
      length after inner UDP, shim, MD header and stack. */
  predicate StackFits(x: seq<byte>)
    requires HasMd(x)
  {
    var at, len: int := InnerAt(x), x[InnerAt(x) + 9];
    var stack := 4 * (len - 3);
    var payload := U16At(x, 48) - 24 - stack;
    len == 3 || (3 < len <= 68 && 0 <= payload <= 8130 && |x| >= at + 24 + stack + payload)
  }

  predicate InnerFits(x: seq<byte>)
    requires HasPath(x)
  {
    x[46] == 17 ==>
      && HasInner(x)
      && (U16At(x, InnerAt(x) + 2) == 12345 ==>
            HasShim(x) && (x[InnerAt(x) + 8] / 16 == 1 ==> HasMd(x) && StackFits(x)))
  }

  /** No header that is announced is cut off. */
  predicate Fits(x: seq<byte>) {
    && |x| >= 14
    && (U16At(x, 12) == 0x0800 ==> HasIpv4(x) && (x[23] == 17 ==> HasUdp(x)))
    && (IsScion(x) ==> HasPath(x) && InnerFits(x))
  }

  lemma StackParses(i: Inner, payloadLen: u16, y: seq<byte>)
    requires i.shim.Some? && i.md.Some?
    ensures ParseStack(i, payloadLen, y).Some? <==>
            var len: int := i.shim.value.length;
            var stack := 4 * (len - 3);
            var payload := payloadLen - 24 - stack;
            len == 3 || (3 < len <= 68 && 0 <= payload <= 8130 && |y| >= stack + payload)
  {
    var len: int := i.shim.value.length;
    if len > 3 {
      assert StackBits(i.shim.value.length) == 32 * (len - 3);
      PayloadCount(payloadLen, len);
    } else if len < 3 {
      assert StackBits(i.shim.value.length) > MAX_STACK;
    }
    hide PayloadBits;
    hide StackBits;
  }

  lemma PayloadCount(payloadLen: u16, len: int)
    requires 3 < len < 256
    ensures var payload := payloadLen - 24 - 4 * (len - 3);
      var bits := PayloadBits(payloadLen, 32 * (len - 3));
      if 0 <= payload then bits == 8 * payload else bits > MAX_PAYLOAD
  {
    var bits := payloadLen as int * 8 - 192 - 32 * (len - 3);
    assert bits == 8 * (payloadLen - 24 - 4 * (len - 3));
    if bits < 0 {
      assert bits % 0x1_0000_0000 == bits + 0x1_0000_0000;
    }
  }

  lemma InnerAccepts(x: seq<byte>)
    requires HasPath(x)
    ensures var r := ParseInner(x[46], x[InnerAt(x)..]);
      (r.Some? && ParseStack(r.value.0, U16At(x, 48), r.value.1).Some?) <==> InnerFits(x)
  {
    hide ReadUdp;
    hide ReadIntShim;
    hide ReadIntMd;
    hide ParseInner;
    hide InnerSoFar;
    hide ParseStack;
    hide HasPath;
    hide U16At;
    hide InnerAt;
    InsideOfPath(x);
    hide TellsPath;
    var at := InnerAt(x);
    InnerStage(x[46], x[at..]);
    InnerSlices(x, at);
    var r := ParseInner(x[46], x[at..]);
    if r.Some? {
      if r.value.0.md.Some? {
        ShimLength(x, at);
        assert x[at..][24..] == x[at + 24..];
        StackParses(r.value.0, U16At(x, 48), r.value.1);
      } else {
        NoStackParses(r.value.0, U16At(x, 48), r.value.1);
      }
    }
  }

  lemma ShimLength(x: seq<byte>, at: nat)
    requires |x| >= at + 12
    ensures ReadIntShim(x[at + 8..at + 12]).length == x[at + 9]
  {
    IntShimLayout(x[at + 8..at + 12]);
  }

  lemma NoStackParses(i: Inner, payloadLen: u16, y: seq<byte>)
    requires i.md.None?
    ensures ParseStack(i, payloadLen, y).Some?
  {
  }

  lemma BodyAccepts(o: Outer, x: seq<byte>)
    requires IsScion(x)
    ensures ParseBody(Discards, o, x[42..]).Some? <==> HasPath(x) && InnerFits(x)
  {
    hide ReadScionCommon;
    hide ReadAddrCommon;
    hide ParseScion;
    hide ScionSoFar;
    hide ScionShape;
    hide Host.Bytes;
    hide ParsePathOn;
    hide InnerFits;
    var y := x[42..];
    ScionStage(y);
    if |y| >= 28 {
      HostsStage(y);
    }
    if |x| >= 54 {
      assert y[..12] == x[42..54];
      ScionCommonLayout(x[42..54]);
    }
    if HasHosts(x) {
      HostSlices(x);
      PathAccepts(NO_HEADERS.(outer := o, scion := ParseScion(y).value.0), x);
    }
  }

  lemma PathAccepts(g: Headers, x: seq<byte>)
    requires HasHosts(x) && g.scion.common.Some?
    requires var c := g.scion.common.value;
      c.pathType == x[50] && c.nextHdr == x[46] && c.payloadLen == U16At(x, 48)
    ensures ParsePathOn(Discards, g, x[PathAt(x)..]).Some? <==> HasPath(x) && InnerFits(x)
  {
    hide ParsePath;
    hide PathSoFar;
    hide ParseInner;
    hide ParseStack;
    hide PathIs;
    hide InnerFits;
    PathParses(x);
    if HasPath(x) {
      InnerAccepts(x);
      hide HasPath;
      hide InnerAt;
      hide PathAt;
    }
  }

  /** The parser accepts exactly the packets that have all the headers they announce. */
  lemma AcceptedRaw(x: seq<byte>)
    ensures Parse(x).Some? <==> Fits(x)
  {
    OuterStage(x);
    hide ParseOuter;
    hide OuterSoFar;
    hide ParseBody;
    hide ToScion;
    hide HasPath;
    hide InnerFits;
    if IsScion(x) {
      BodyAccepts(ParseOuter(x).value.0, x);
    }
  }

  //////////////////////////////////////////////////////////////////////
  // Info fields and segments
  //////////////////////////////////////////////////////////////////////

  /** The path header has one info field per segment, that is, per non-zero segment length. */
  function Segments(seg0: nat, seg1: nat, seg2: nat): nat {
    (if seg0 != 0 then 1 else 0) + (if seg1 != 0 then 1 else 0) + (if seg2 != 0 then 1 else 0)
  }

  /** Info fields that were extracted. */
  function Extracts(p: Path): nat {
    (if p.info0.Some? then 1 else 0) + (if p.info1.Some? then 1 else 0) + (if p.info2.Some? then 1 else 0)
  }

  /** An accepted SCION path has one info field per segment if and only if there is a first segment, and a second one
      where there is a third. Its hop fields are what follows the info fields, 12 bytes for each of the lengths. */
  lemma InfoPerSegment(x: seq<byte>)
    requires Parse(x).Some? && IsScion(x) && |x| >= 54 && x[50] == 1
    ensures HasPath(x)
    ensures var p, n := Parse(x).value.hdr.path, Extracts(Parse(x).value.hdr.path);
      var start, size := PathAt(x) + 4 + 8 * n, 12 * (Seg0(x) + Seg1(x) + Seg2(x));
      && (n == Segments(Seg0(x), Seg1(x), Seg2(x)) <==> Seg0(x) != 0 && (Seg2(x) != 0 ==> Seg1(x) != 0))
      && p.meta.Some? && (p.meta.value.seg0Len, p.meta.value.seg1Len, p.meta.value.seg2Len)
                         == (Seg0(x), Seg1(x), Seg2(x))
      && start + size <= |x| && p.hops == Some(x[start..start + size])
      && InfosAre(p, x, PathAt(x) + 4, n)
  {
    hide Received;
    hide PathIs;
    hide InnerIs;
    hide ScionIs;
    hide InnerFits;
    AcceptedIsReceived(Continues, x);
    AcceptedRaw(x);
    HeadersRaw(x);
    PathCounts(Parse(x).value.hdr.path, x);
  }

  /** The first n info fields, from offset at on. */
  predicate InfosAre(p: Path, x: seq<byte>, at: nat, n: nat) {
    && at + 8 * n <= |x|
    && (n >= 1 ==> p.info0 == Some(x[at..at + 8]))
    && (n >= 2 ==> p.info1 == Some(x[at + 8..at + 16]))
    && (n >= 3 ==> p.info2 == Some(x[at + 16..at + 24]))
  }

  lemma SegmentsAt(x: seq<byte>)
    requires TellsPath(x) && x[50] == 1
    ensures var m := ReadPathMeta(x[PathAt(x)..PathAt(x) + 4]);
      m.seg0Len == Seg0(x) && m.seg1Len == Seg1(x) && m.seg2Len == Seg2(x)
  {
    PathMetaLayout(x[PathAt(x)..PathAt(x) + 4]);
  }

  lemma PathCounts(p: Path, x: seq<byte>)
    requires HasPath(x) && x[50] == 1 && PathIs(p, x)
    ensures var n := Extracts(p);
      var start, size := PathAt(x) + 4 + 8 * n, 12 * (Seg0(x) + Seg1(x) + Seg2(x));
      && n == Infos(x)
      && p.meta.Some? && (p.meta.value.seg0Len, p.meta.value.seg1Len, p.meta.value.seg2Len)
                         == (Seg0(x), Seg1(x), Seg2(x))
      && start + size <= |x| && p.hops == Some(x[start..start + size])
      && InfosAre(p, x, PathAt(x) + 4, n)
  {
    SegmentsAt(x);
    hide ReadPathMeta;
    hide IsScion;
    var at, n := PathAt(x) + 4, Infos(x);
    assert HopFieldsAt(x) - 8 * n == at;
    var y, size := x[at..], InnerAt(x) - HopFieldsAt(x);
    assert InnerAt(x) == at + 8 * n + 12 * (Seg0(x) + Seg1(x) + Seg2(x)) <= |x|;
    hide HasPath;
    hide InnerAt;
    hide HopFieldsAt;
    hide PathAt;
    hide Seg0;
    hide Seg1;
    hide Seg2;
    hide Infos;
    CutFields(x, at, n, size);
  }

  lemma CutFields(x: seq<byte>, at: nat, n: nat, size: nat)
    requires 1 <= n <= 3 && at + 8 * n + size <= |x|
    ensures var y := x[at..];
      && y[..8] == x[at..at + 8]
      && (n >= 2 ==> y[8..16] == x[at + 8..at + 16]) && (n >= 3 ==> y[16..24] == x[at + 16..at + 24])
      && y[8 * n..8 * n + size] == x[at + 8 * n..at + 8 * n + size]
  {
  }
}
