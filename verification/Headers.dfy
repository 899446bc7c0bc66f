/** The headers of the INT switch and their wire format (headers/common.p4, scion.p4, int.p4).
    Fields that no statement reads apart from their neighbours share one byte-aligned field. */
module Headers {
  import opened Bits

  /** The n-byte number b. */
  function Num(n: nat, b: seq<byte>): (v: nat)
    requires |b| == n
    ensures v < Pow256(n) && BytesOf(n, v) == b
  {
    NatOfBound(b);
    BytesOfNatOf(b);
    NatOf(b)
  }

  lemma NumBytes(n: nat, v: nat)
    requires v < Pow256(n)
    ensures Num(n, BytesOf(n, v)) == v
  {
    NatOfBytesOfFits(n, v);
  }

  lemma Suffix(a: seq<byte>, b: seq<byte>)
    ensures (a + b)[|a|..|a| + |b|] == b
  {
  }

  datatype Ethernet = Ethernet(dstAddr: u48, srcAddr: u48, etherType: u16) {
    function Bytes(): (b: seq<byte>)
      ensures |b| == 14
    {
      BytesOf(6, dstAddr) + BytesOf(6, srcAddr) + BytesOf(2, etherType)
    }
  }

  function ReadEthernet(b: seq<byte>): (h: Ethernet)
    requires |b| == 14
    ensures h.Bytes() == b
  {
    Pow256Values();
    Ethernet(Num(6, b[0..6]), Num(6, b[6..12]), Num(2, b[12..14]))
  }

  lemma ReadEthernetBytes(h: Ethernet)
    ensures ReadEthernet(h.Bytes()) == h
  {
    Pow256Values();
    NumBytes(6, h.dstAddr);
    NumBytes(6, h.srcAddr);
    NumBytes(2, h.etherType);
    var b := h.Bytes();
    Suffix(BytesOf(6, h.dstAddr) + BytesOf(6, h.srcAddr), BytesOf(2, h.etherType));
    assert b[0..6] == BytesOf(6, h.dstAddr) && b[6..12] == BytesOf(6, h.srcAddr);
    assert b[12..14] == BytesOf(2, h.etherType);
  }

  datatype Ipv4 = Ipv4(versionIhl: byte, diffserv: byte, totalLen: u16, identification: u16,
                       flagsFragOffset: u16, ttl: byte, protocol: byte, hdrChecksum: u16,
                       srcAddr: u32, dstAddr: u32) {
    function Front(): (b: seq<byte>)
      ensures |b| == 10
    {
      BytesOf(1, versionIhl) + BytesOf(1, diffserv) + BytesOf(2, totalLen) + BytesOf(2, identification)
      + BytesOf(2, flagsFragOffset) + BytesOf(1, ttl) + BytesOf(1, protocol)
    }

    function Addrs(): (b: seq<byte>)
      ensures |b| == 8
    {
      BytesOf(4, srcAddr) + BytesOf(4, dstAddr)
    }

    function Bytes(): (b: seq<byte>)
      ensures |b| == 20
    {
      Front() + BytesOf(2, hdrChecksum) + Addrs()
    }
  }

  function ReadIpv4(b: seq<byte>): (h: Ipv4)
    requires |b| == 20
    ensures h.Bytes() == b
  {
    Pow256Values();
    var h := Ipv4(Num(1, b[0..1]), Num(1, b[1..2]), Num(2, b[2..4]), Num(2, b[4..6]), Num(2, b[6..8]),
                  Num(1, b[8..9]), Num(1, b[9..10]), Num(2, b[10..12]), Num(4, b[12..16]), Num(4, b[16..20]));
    Ipv4Pieces(h, b);
    h
  }

  lemma Ipv4Pieces(h: Ipv4, b: seq<byte>)
    requires |b| == 20
    requires BytesOf(1, h.versionIhl) == b[0..1] && BytesOf(1, h.diffserv) == b[1..2]
    requires BytesOf(2, h.totalLen) == b[2..4]
    requires BytesOf(2, h.identification) == b[4..6] && BytesOf(2, h.flagsFragOffset) == b[6..8]
    requires BytesOf(1, h.ttl) == b[8..9] && BytesOf(1, h.protocol) == b[9..10]
    requires BytesOf(2, h.hdrChecksum) == b[10..12]
    requires BytesOf(4, h.srcAddr) == b[12..16] && BytesOf(4, h.dstAddr) == b[16..20]
    ensures h.Bytes() == b
  {
    hide BytesOf;
    assert h.Front() == b[0..10];
    assert h.Addrs() == b[12..20];
  }

  lemma ReadIpv4Bytes(h: Ipv4)
    ensures ReadIpv4(h.Bytes()) == h
  {
    Pow256Values();
    var b := h.Bytes();
    assert b[0..10] == h.Front() && b[10..12] == BytesOf(2, h.hdrChecksum) && b[12..20] == h.Addrs();
    var f, a := h.Front(), h.Addrs();
    assert b[0..1] == f[0..1] == BytesOf(1, h.versionIhl) && b[1..2] == f[1..2] == BytesOf(1, h.diffserv);
    assert b[2..4] == f[2..4] == BytesOf(2, h.totalLen) && b[4..6] == f[4..6] == BytesOf(2, h.identification);
    assert b[6..8] == f[6..8] == BytesOf(2, h.flagsFragOffset) && b[8..9] == f[8..9] == BytesOf(1, h.ttl);
    assert b[9..10] == f[9..10] == BytesOf(1, h.protocol);
    assert b[12..16] == a[0..4] == BytesOf(4, h.srcAddr) && b[16..20] == a[4..8] == BytesOf(4, h.dstAddr);
    NumBytes(1, h.versionIhl);
    NumBytes(1, h.diffserv);
    NumBytes(2, h.totalLen);
    NumBytes(2, h.identification);
    NumBytes(2, h.flagsFragOffset);
    NumBytes(1, h.ttl);
    NumBytes(1, h.protocol);
    NumBytes(2, h.hdrChecksum);
    NumBytes(4, h.srcAddr);
    NumBytes(4, h.dstAddr);
  }

  datatype Udp = Udp(srcPort: u16, dstPort: u16, len: u16, checksum: u16) {
    /** Everything before the checksum. */
    function Front(): (b: seq<byte>)
      ensures |b| == 6
    {
      BytesOf(2, srcPort) + BytesOf(2, dstPort) + BytesOf(2, len)
    }

    function Bytes(): (b: seq<byte>)
      ensures |b| == 8
    {
      Front() + BytesOf(2, checksum)
    }
  }

  function ReadUdp(b: seq<byte>): (h: Udp)
    requires |b| == 8
    ensures h.Bytes() == b
  {
    Pow256Values();
    Udp(Num(2, b[0..2]), Num(2, b[2..4]), Num(2, b[4..6]), Num(2, b[6..8]))
  }

  lemma ReadUdpBytes(h: Udp)
    ensures ReadUdp(h.Bytes()) == h
  {
    Pow256Values();
    var b := h.Bytes();
    Suffix(h.Front(), BytesOf(2, h.checksum));
    assert b[0..2] == BytesOf(2, h.srcPort) && b[2..4] == BytesOf(2, h.dstPort);
    assert b[4..6] == BytesOf(2, h.len) && b[6..8] == BytesOf(2, h.checksum);
    NumBytes(2, h.srcPort);
    NumBytes(2, h.dstPort);
    NumBytes(2, h.len);
    NumBytes(2, h.checksum);
  }

  datatype IntCpu = IntCpu(identifier: u64, cpuHdrLen: u64) {
    function Bytes(): (b: seq<byte>)
      ensures |b| == 16
    {
      BytesOf(8, identifier) + BytesOf(8, cpuHdrLen)
    }
  }

  datatype ScionCommon = ScionCommon(version: u4, qos: byte, flowID: u20, nextHdr: byte, hdrLen: byte,
                                     payloadLen: u16, pathType: byte, dt: u2, dl: u2, st: u2, sl: u2, rsv: u16) {
    /** version, qos and flowID as one 32-bit word. */
    function FirstWord(): u32 {
      (version * 256 + qos) * 0x10_0000 + flowID
    }

    /** Types and lengths of the two host addresses. */
    function Lengths(): byte {
      ((dt * 4 + dl) * 4 + st) * 4 + sl
    }

    function Bytes(): (b: seq<byte>)
      ensures |b| == 12
    {
      BytesOf(4, FirstWord()) + BytesOf(1, nextHdr) + BytesOf(1, hdrLen) + BytesOf(2, payloadLen)
      + BytesOf(1, pathType) + BytesOf(1, Lengths()) + BytesOf(2, rsv)
    }
  }

  function ReadScionCommon(b: seq<byte>): (h: ScionCommon)
    requires |b| == 12
    ensures h.Bytes() == b
  {
    Pow256Values();
    var w := Num(4, b[0..4]);
    var l := Num(1, b[9..10]);
    var h := ScionCommon(w / 0x10_0000 / 256, w / 0x10_0000 % 256, w % 0x10_0000, Num(1, b[4..5]), Num(1, b[5..6]),
                         Num(2, b[6..8]), Num(1, b[8..9]), l / 4 / 4 / 4, l / 4 / 4 % 4, l / 4 % 4, l % 4,
                         Num(2, b[10..12]));
    assert h.FirstWord() == w && h.Lengths() == l;
    h
  }

  lemma ReadScionCommonBytes(h: ScionCommon)
    ensures ReadScionCommon(h.Bytes()) == h
  {
    Pow256Values();
    var b := h.Bytes();
    Suffix(BytesOf(4, h.FirstWord()) + BytesOf(1, h.nextHdr) + BytesOf(1, h.hdrLen) + BytesOf(2, h.payloadLen)
           + BytesOf(1, h.pathType) + BytesOf(1, h.Lengths()), BytesOf(2, h.rsv));
    assert b[0..4] == BytesOf(4, h.FirstWord()) && b[4..5] == BytesOf(1, h.nextHdr);
    assert b[5..6] == BytesOf(1, h.hdrLen) && b[6..8] == BytesOf(2, h.payloadLen);
    assert b[8..9] == BytesOf(1, h.pathType) && b[9..10] == BytesOf(1, h.Lengths());
    assert b[10..12] == BytesOf(2, h.rsv);
    NumBytes(4, h.FirstWord());
    NumBytes(1, h.nextHdr);
    NumBytes(1, h.hdrLen);
    NumBytes(2, h.payloadLen);
    NumBytes(1, h.pathType);
    NumBytes(1, h.Lengths());
    NumBytes(2, h.rsv);
  }

  datatype AddrCommon = AddrCommon(dstISD: u16, dstAS: u48, srcISD: u16, srcAS: u48) {
    function Bytes(): (b: seq<byte>)
      ensures |b| == 16
    {
      BytesOf(2, dstISD) + BytesOf(6, dstAS) + BytesOf(2, srcISD) + BytesOf(6, srcAS)
    }
  }

  function ReadAddrCommon(b: seq<byte>): (h: AddrCommon)
    requires |b| == 16
    ensures h.Bytes() == b
  {
    Pow256Values();
    AddrCommon(Num(2, b[0..2]), Num(6, b[2..8]), Num(2, b[8..10]), Num(6, b[10..16]))
  }

  lemma ReadAddrCommonBytes(h: AddrCommon)
    ensures ReadAddrCommon(h.Bytes()) == h
  {
    Pow256Values();
    var b := h.Bytes();
    Suffix(BytesOf(2, h.dstISD) + BytesOf(6, h.dstAS) + BytesOf(2, h.srcISD), BytesOf(6, h.srcAS));
    assert b[0..2] == BytesOf(2, h.dstISD) && b[2..8] == BytesOf(6, h.dstAS);
    assert b[8..10] == BytesOf(2, h.srcISD) && b[10..16] == BytesOf(6, h.srcAS);
    NumBytes(2, h.dstISD);
    NumBytes(6, h.dstAS);
    NumBytes(2, h.srcISD);
    NumBytes(6, h.srcAS);
  }

  /** curr is currInf and currHF. */
  datatype PathMeta = PathMeta(curr: byte, rsv: u6, seg0Len: u6, seg1Len: u6, seg2Len: u6) {
    function Segs(): (v: int)
      ensures 0 <= v < 0x100_0000
    {
      ((rsv * 64 + seg0Len) * 64 + seg1Len) * 64 + seg2Len
    }

    function Bytes(): (b: seq<byte>)
      ensures |b| == 4
    {
      BytesOf(1, curr) + BytesOf(3, Segs())
    }
  }

  function ReadPathMeta(b: seq<byte>): (h: PathMeta)
    requires |b| == 4
    ensures h.Bytes() == b
  {
    Pow256Values();
    var s := Num(3, b[1..4]);
    var h := PathMeta(Num(1, b[0..1]), s / 64 / 64 / 64, s / 64 / 64 % 64, s / 64 % 64, s % 64);
    assert h.Segs() == s;
    h
  }

  lemma SegsSplit(h: PathMeta)
    ensures h.Segs() / 64 / 64 / 64 == h.rsv && h.Segs() / 64 / 64 % 64 == h.seg0Len
    ensures h.Segs() / 64 % 64 == h.seg1Len && h.Segs() % 64 == h.seg2Len
  {
  }

  lemma ReadPathMetaBytes(h: PathMeta)
    ensures ReadPathMeta(h.Bytes()) == h
  {
    Pow256Values();
    SegsSplit(h);
    hide PathMeta.Segs;
    hide BytesOf;
    hide Pow256;
    var b := h.Bytes();
    assert b[0..1] == BytesOf(1, h.curr) && b[1..4] == BytesOf(3, h.Segs());
    NumBytes(1, h.curr);
    NumBytes(3, h.Segs());
  }

  datatype IntShim = IntShim(kind: u4, npt: u2, r: u2, length: byte, udpPort: u16) {
    function First(): byte {
      (kind * 4 + npt) * 4 + r
    }

    function Bytes(): (b: seq<byte>)
      ensures |b| == 4
    {
      BytesOf(1, First()) + BytesOf(1, length) + BytesOf(2, udpPort)
    }
  }

  function ReadIntShim(b: seq<byte>): (h: IntShim)
    requires |b| == 4
    ensures h.Bytes() == b
  {
    Pow256Values();
    var f := Num(1, b[0..1]);
    var h := IntShim(f / 4 / 4, f / 4 % 4, f % 4, Num(1, b[1..2]), Num(2, b[2..4]));
    assert h.First() == f;
    h
  }

  lemma ReadIntShimBytes(h: IntShim)
    ensures ReadIntShim(h.Bytes()) == h
  {
    Pow256Values();
    var b := h.Bytes();
    assert b[0..1] == BytesOf(1, h.First()) && b[1..2] == BytesOf(1, h.length) && b[2..4] == BytesOf(2, h.udpPort);
    NumBytes(1, h.First());
    NumBytes(1, h.length);
    NumBytes(2, h.udpPort);
  }

  datatype IntMd = IntMd(version: u4, discard: u1, exceededHopCount: u1, mtuExceeded: u1, reserved: u12, hopML: u5,
                         remainingHopCount: byte, instructionBitmap: u16, domainID: u16,
                         domainInstructions: u16, domainFlags: u16) {
    function Flags(): (v: int)
      ensures 0 <= v < 0x100_0000
    {
      ((((version * 2 + discard) * 2 + exceededHopCount) * 2 + mtuExceeded) * 4096 + reserved) * 32 + hopML
    }

    function Bytes(): (b: seq<byte>)
      ensures |b| == 12
    {
      BytesOf(3, Flags()) + BytesOf(1, remainingHopCount) + BytesOf(2, instructionBitmap)
      + BytesOf(2, domainID) + BytesOf(2, domainInstructions) + BytesOf(2, domainFlags)
    }
  }

  function ReadIntMd(b: seq<byte>): (h: IntMd)
    requires |b| == 12
    ensures h.Bytes() == b
  {
    Pow256Values();
    var f := Num(3, b[0..3]);
    var h := IntMd(f / 32 / 4096 / 2 / 2 / 2, f / 32 / 4096 / 2 / 2 % 2, f / 32 / 4096 / 2 % 2, f / 32 / 4096 % 2,
                   f / 32 % 4096, f % 32,
                   Num(1, b[3..4]), Num(2, b[4..6]), Num(2, b[6..8]), Num(2, b[8..10]), Num(2, b[10..12]));
    assert h.Flags() == f;
    h
  }

  lemma ReadIntMdBytes(h: IntMd)
    ensures ReadIntMd(h.Bytes()) == h
  {
    Pow256Values();
    var b := h.Bytes();
    Suffix(BytesOf(3, h.Flags()) + BytesOf(1, h.remainingHopCount) + BytesOf(2, h.instructionBitmap)
           + BytesOf(2, h.domainID) + BytesOf(2, h.domainInstructions), BytesOf(2, h.domainFlags));
    assert b[0..3] == BytesOf(3, h.Flags()) && b[3..4] == BytesOf(1, h.remainingHopCount);
    assert b[4..6] == BytesOf(2, h.instructionBitmap) && b[6..8] == BytesOf(2, h.domainID);
    assert b[8..10] == BytesOf(2, h.domainInstructions) && b[10..12] == BytesOf(2, h.domainFlags);
    NumBytes(3, h.Flags());
    NumBytes(1, h.remainingHopCount);
    NumBytes(2, h.instructionBitmap);
    NumBytes(2, h.domainID);
    NumBytes(2, h.domainInstructions);
    NumBytes(2, h.domainFlags);
  }

  /** A header that is not valid emits nothing. */
  function Raw(o: Option<seq<byte>>): seq<byte> {
    match o case None => [] case Some(b) => b
  }

  function Word32(o: Option<u32>): seq<byte> {
    match o case None => [] case Some(v) => BytesOf(4, v)
  }

  function Word64(o: Option<u64>): seq<byte> {
    match o case None => [] case Some(v) => BytesOf(8, v)
  }

  /** ethernet, ipv4, udp. */
  datatype Outer = Outer(ethernet: Option<Ethernet>, ipv4: Option<Ipv4>, udp: Option<Udp>) {
    function Bytes(): seq<byte> {
      (if ethernet.Some? then ethernet.value.Bytes() else [])
      + (if ipv4.Some? then ipv4.value.Bytes() else [])
      + (if udp.Some? then udp.value.Bytes() else [])
    }
  }

  /** The four alternatives for one host address: host_32, host_32_2, host_32_3, host_128. */
  datatype Host = Host(first: Option<seq<byte>>, second: Option<seq<byte>>, third: Option<seq<byte>>,
                       wide: Option<seq<byte>>) {
    function Bytes(): seq<byte> {
      Raw(first) + Raw(second) + Raw(third) + Raw(wide)
    }
  }

  /** scion_common, scion_addr_common and the host addresses. */
  datatype Scion = Scion(common: Option<ScionCommon>, addr: Option<AddrCommon>, dst: Host, src: Host) {
    function Bytes(): seq<byte> {
      (if common.Some? then common.value.Bytes() else [])
      + (if addr.Some? then addr.value.Bytes() else [])
      + dst.Bytes() + src.Bytes()
    }
  }

  /** scion_path_meta, up to three info fields and the hop fields. */
  datatype Path = Path(meta: Option<PathMeta>, info0: Option<seq<byte>>, info1: Option<seq<byte>>,
                       info2: Option<seq<byte>>, hops: Option<seq<byte>>) {
    function Bytes(): seq<byte> {
      (if meta.Some? then meta.value.Bytes() else []) + Raw(info0) + Raw(info1) + Raw(info2) + Raw(hops)
    }
  }

  /** udp_scion, int_shim and int_md. */
  datatype Inner = Inner(udp: Option<Udp>, shim: Option<IntShim>, md: Option<IntMd>) {
    function Bytes(): seq<byte> {
      (if udp.Some? then udp.value.Bytes() else [])
      + (if shim.Some? then shim.value.Bytes() else [])
      + (if md.Some? then md.value.Bytes() else [])
    }
  }

  /** The members of int_stack_t that some statement makes valid, in order. */
  datatype IntStack = IntStack(pre: Option<seq<byte>>, nodeID: Option<u32>, ingressTime: Option<u64>,
                               egressTime: Option<u64>, egressIFUtil: Option<u32>, sciAsAddr: Option<u64>) {
    function Bytes(): seq<byte> {
      Raw(pre) + Word32(nodeID) + Word64(ingressTime) + Word64(egressTime) + Word32(egressIFUtil) + Word64(sciAsAddr)
    }
  }

  const NO_OUTER := Outer(None, None, None)
  const NO_HOST := Host(None, None, None, None)
  const NO_SCION := Scion(None, None, NO_HOST, NO_HOST)
  const NO_PATH := Path(None, None, None, None, None)
  const NO_INNER := Inner(None, None, None)
  const NO_STACK := IntStack(None, None, None, None, None, None)
  const NO_HEADERS := Headers(NO_OUTER, None, NO_SCION, NO_PATH, NO_INNER, NO_STACK, None)

  /** headers_t, in emission order. */
  datatype Headers = Headers(outer: Outer, cpu: Option<IntCpu>, scion: Scion, path: Path, inner: Inner,
                             stack: IntStack, payload: Option<seq<byte>>) {
    /** From scion_common through int_md. */
    function ScionToMd(): seq<byte> {
      scion.Bytes() + path.Bytes() + inner.Bytes()
    }

    /** From scion_common on: what both UDP checksum lists name after the UDP fields. */
    function FromScion(): seq<byte> {
      ScionToMd() + stack.Bytes() + Raw(payload)
    }

    /** packet.emit(hdr). */
    function Deparse(): seq<byte> {
      outer.Bytes() + (if cpu.Some? then cpu.value.Bytes() else []) + FromScion()
    }
  }

  /** metadata_t without the flags that no table reads. */
  datatype Metadata = Metadata(intState: u2, intStackLen: u32, cpuHdrLen: u64, addLen: u16, intNodeID: u1,
                               intIngressTime: u1, intEgressTime: u1, intEgIfUtil: u1, sciAsAddr: u1)

  const NO_METADATA := Metadata(0, 0, 0, 0, 0, 0, 0, 0, 0)
}
