/** The CPU copy as the sink's controller reads it: every offset hits the field the parser counted. */
module CpuPacket {
  import opened Bits
  import opened Headers
  import opened Parser
  import opened IntSwitch
  import opened SourceSink
  import Report
  import Text
  import opened Decoder

  //////////////////////////////////////////////////////////////////////
  // The controller's offsets hit the fields the parser counted
  //////////////////////////////////////////////////////////////////////

  lemma TakeBytes(n: nat, v: nat, x: seq<byte>, pos: nat)
    requires v < Pow256(n) && pos + n <= |x| && x[pos..pos + n] == BytesOf(n, v)
    ensures Take(n, x, pos) == v
  {
    NatOfBytesOfFits(n, v);
  }

  lemma LastByte(v: nat)
    ensures BytesOf(3, v)[2..3] == BytesOf(1, v % 256)
  {
  }

  lemma HopMLBits(md: IntMd)
    ensures md.Flags() % 256 % 32 == md.hopML
  {
  }

  lemma MdSlices(md: IntMd)
    ensures Take(1, md.Bytes(), 2) % 32 == md.hopML
    ensures Take(2, md.Bytes(), 4) == md.instructionBitmap
    ensures Take(2, md.Bytes(), 8) == md.domainInstructions
  {
    Pow256Values();
    LastByte(md.Flags());
    HopMLBits(md);
    hide IntMd.Flags;
    hide BytesOf;
    hide Pow256;
    hide Take;
    var b := md.Bytes();
    var f := BytesOf(3, md.Flags());
    assert b[2..3] == f[2..3];
    TakeBytes(1, md.Flags() % 256, b, 2);
    assert b[4..6] == BytesOf(2, md.instructionBitmap);
    TakeBytes(2, md.instructionBitmap, b, 4);
    assert b[8..10] == BytesOf(2, md.domainInstructions);
    TakeBytes(2, md.domainInstructions, b, 8);
  }

  lemma ShimSlices(shim: IntShim)
    ensures Take(1, shim.Bytes(), 1) == shim.length
  {
    Pow256Values();
    assert shim.Bytes()[1..2] == BytesOf(1, shim.length);
    TakeBytes(1, shim.length, shim.Bytes(), 1);
  }

  lemma CommonSlices(c: ScionCommon)
    ensures Take(4, c.Bytes(), 0) % 0x10_0000 == c.flowID
  {
    Pow256Values();
    assert c.Bytes()[0..4] == BytesOf(4, c.FirstWord());
    TakeBytes(4, c.FirstWord(), c.Bytes(), 0);
  }

  lemma AddrSlices(a: AddrCommon)
    ensures Take(8, a.Bytes(), 0) == Text.PackAddress(a.dstISD, a.dstAS)
  {
    Pow256Values();
    var isd, asn := BytesOf(2, a.dstISD), BytesOf(6, a.dstAS);
    assert a.Bytes()[0..8] == isd + asn;
    NatOfConcat(isd, asn);
    NatOfBytesOfFits(2, a.dstISD);
    NatOfBytesOfFits(6, a.dstAS);
  }

  lemma CpuSlices(c: IntCpu)
    ensures Take(8, c.Bytes(), 0) == c.identifier && Take(8, c.Bytes(), 8) == c.cpuHdrLen
  {
    Pow256Values();
    assert c.Bytes()[0..8] == BytesOf(8, c.identifier) && c.Bytes()[8..16] == BytesOf(8, c.cpuHdrLen);
    TakeBytes(8, c.identifier, c.Bytes(), 0);
    TakeBytes(8, c.cpuHdrLen, c.Bytes(), 8);
  }

  lemma SubSlice(x: seq<byte>, i: nat, j: nat, a: nat, b: nat)
    requires i <= j <= |x| && a <= b <= j - i
    ensures x[i..j][a..b] == x[i + a..i + b]
  {
    var y := x[i..j];
    forall k | 0 <= k < b - a
      ensures y[a..b][k] == x[i + a..i + b][k]
    {
    }
  }

  /** Reading inside a part of x is reading x. */
  lemma TakeInside(n: nat, x: seq<byte>, from: nat, part: seq<byte>, pos: nat)
    requires from + |part| <= |x| && x[from..from + |part|] == part && pos + n <= |part|
    ensures Take(n, x, from + pos) == Take(n, part, pos)
  {
    hide NatOf;
    SubSlice(x, from, from + |part|, pos, pos + n);
  }

  lemma Chunk(a: seq<byte>, b: seq<byte>, c: seq<byte>)
    ensures (a + b + c)[|a|..|a| + |b|] == b && (a + b + c)[..|a|] == a && (a + b + c)[|a| + |b|..] == c
  {
  }

  function CpuBytes(h: Headers, rest: seq<byte>): seq<byte>
    requires Extracted(h) && h.inner.shim.Some?
  {
    IntCpu(IntSwitch.INT_IDENTIFIER, CpuHdrLen(h)).Bytes() + h.ScionToMd() + h.stack.Bytes() + rest
  }

  /** The headers the controller reads from a CPU copy, and where the INT stack starts. */
  datatype CpuView = CpuView(end: u64, common: ScionCommon, addr: AddrCommon, shim: IntShim, md: IntMd) {
    predicate Describes(x: seq<byte>) {
      && 68 <= end <= |x|
      && x[0..16] == IntCpu(IntSwitch.INT_IDENTIFIER, end - 16).Bytes()
      && x[16..28] == common.Bytes()
      && x[28..44] == addr.Bytes()
      && x[end - 16..end - 12] == shim.Bytes()
      && x[end - 12..end] == md.Bytes()
    }
  }

  /** The view of a parsed INT-MD packet's CPU copy. */
  function ViewOf(h: Headers): CpuView
    requires Extracted(h) && h.inner.md.Some?
  {
    CpuView(16 + CpuHdrLen(h), h.scion.common.value, h.scion.addr.value, h.inner.shim.value, h.inner.md.value)
  }

  /** The headers of an INT-MD packet are all there. */
  lemma MdHeaders(h: Headers)
    requires Extracted(h) && h.inner.md.Some?
    ensures ToScion(h.outer) && h.scion.common.Some? && h.scion.addr.Some? && h.inner.udp.Some? && h.inner.shim.Some?
    ensures h.stack.pre.Some? ==>
              3 < h.inner.shim.value.length && |h.stack.Bytes()| == 4 * (h.inner.shim.value.length - 3)
  {
    hide PathShape;
    hide IntStack.Bytes;
    StackSize(h);
  }

  lemma ScionToMdParts(h: Headers)
    requires h.scion.common.Some? && h.scion.addr.Some? && h.inner.udp.Some? && h.inner.shim.Some? && h.inner.md.Some?
    ensures h.ScionToMd()
        == (h.scion.common.value.Bytes() + h.scion.addr.value.Bytes() + h.scion.dst.Bytes() + h.scion.src.Bytes())
                             + h.path.Bytes()
                             + (h.inner.udp.value.Bytes() + h.inner.shim.value.Bytes() + h.inner.md.value.Bytes())
  {
  }

  /** The CPU copy of any parsed INT-MD packet, as the controller finds it. */
  lemma CpuCopyView(h: Headers, rest: seq<byte>)
    requires Extracted(h) && h.inner.md.Some?
    ensures ViewOf(h).Describes(CpuBytes(h, rest))
    ensures CpuBytes(h, rest)[ViewOf(h).end..] == h.stack.Bytes() + rest
    ensures h.stack.pre.Some? ==>
              3 < ViewOf(h).shim.length && |h.stack.Bytes()| == 4 * (ViewOf(h).shim.length - 3)
  {
    MdHeaders(h);
    ScionToMdParts(h);
    hide Extracted;
    hide ToScion;
    hide Headers.ScionToMd;
    hide IntStack.Bytes;
    hide Path.Bytes;
    hide Host.Bytes;
    hide IntCpu.Bytes;
    hide ScionCommon.Bytes;
    hide AddrCommon.Bytes;
    hide Udp.Bytes;
    hide IntShim.Bytes;
    hide IntMd.Bytes;
    var v := ViewOf(h);
    CpuLayout(IntCpu(IntSwitch.INT_IDENTIFIER, CpuHdrLen(h)).Bytes(), v.common.Bytes(), v.addr.Bytes(),
              h.scion.dst.Bytes(), h.scion.src.Bytes(), h.path.Bytes(),
              h.inner.udp.value.Bytes(), v.shim.Bytes(), v.md.Bytes(), h.stack.Bytes(), rest);
  }

  lemma CpuLayout(cpu: seq<byte>, c: seq<byte>, a: seq<byte>, dst: seq<byte>, src: seq<byte>, p: seq<byte>,
                  u: seq<byte>,
                  sh: seq<byte>, md: seq<byte>, t: seq<byte>, rest: seq<byte>)
    requires |cpu| == 16 && |c| == 12 && |a| == 16 && |u| == 8 && |sh| == 4 && |md| == 12
    ensures var x := cpu + ((c + a + dst + src) + p + (u + sh + md)) + t + rest;
      var end := 16 + |(c + a + dst + src) + p + (u + sh + md)|;
      && end == 68 + |dst| + |src| + |p| <= |x|
      && x[0..16] == cpu && x[16..28] == c && x[28..44] == a
      && x[end - 16..end - 12] == sh && x[end - 12..end] == md && x[end..] == t + rest
  {
    var s := c + a + dst + src;
    var inner := u + sh + md;
    var body := s + p + inner;
    var x := cpu + body + t + rest;
    var end := 16 + |body|;
    assert x == cpu + body + (t + rest);
    Chunk(cpu, body, t + rest);
    assert s[0..12] == c && s[12..28] == a;
    assert body[0..12] == c && body[12..28] == a;
    assert x[16..28] == body[0..12] && x[28..44] == body[12..28];
    var k := |s + p|;
    assert body == (s + p) + inner + [];
    Chunk(s + p, inner, []);
    assert inner[8..12] == sh && inner[12..24] == md;
    assert body[k + 8..k + 12] == sh && body[k + 12..k + 24] == md;
    assert x[16 + k + 8..16 + k + 12] == body[k + 8..k + 12];
    assert x[16 + k + 12..16 + k + 24] == body[k + 12..k + 24];
  }

  /** Every offset, forward from int_cpu or backward from cpuHdrLen, reads the field it is meant to read. */
  lemma CpuOffsets(x: seq<byte>, v: CpuView)
    requires v.Describes(x)
    ensures Take(8, x, 0) == IntSwitch.INT_IDENTIFIER && Take(8, x, 8) == v.end - 16
    ensures Take(4, x, 16) % 0x10_0000 == v.common.flowID
    ensures Take(8, x, 28) == Text.PackAddress(v.addr.dstISD, v.addr.dstAS)
    ensures Take(2, x, v.end - 8) == v.md.instructionBitmap && Take(2, x, v.end - 4) == v.md.domainInstructions
    ensures Take(1, x, v.end - 15) == v.shim.length && Take(1, x, v.end - 10) % 32 == v.md.hopML
  {
    hide Take;
    hide IntMd.Bytes;
    hide IntShim.Bytes;
    hide IntCpu.Bytes;
    hide ScionCommon.Bytes;
    hide AddrCommon.Bytes;
    var cpu := IntCpu(IntSwitch.INT_IDENTIFIER, v.end - 16);
    CpuSlices(cpu);
    TakeInside(8, x, 0, cpu.Bytes(), 0);
    TakeInside(8, x, 0, cpu.Bytes(), 8);
    CommonSlices(v.common);
    TakeInside(4, x, 16, v.common.Bytes(), 0);
    AddrSlices(v.addr);
    TakeInside(8, x, 28, v.addr.Bytes(), 0);
    ShimSlices(v.shim);
    TakeInside(1, x, v.end - 16, v.shim.Bytes(), 1);
    MdSlices(v.md);
    TakeInside(1, x, v.end - 12, v.md.Bytes(), 2);
    TakeInside(2, x, v.end - 12, v.md.Bytes(), 4);
    TakeInside(2, x, v.end - 12, v.md.Bytes(), 8);
  }

  //////////////////////////////////////////////////////////////////////
  // Any N-hop stack
  //////////////////////////////////////////////////////////////////////

  /** What the controller reports when it decodes n hops from the bytes x. */
  function ReportOf(x: seq<byte>, v: CpuView, n: nat, nodeID: u32): Outcome
    requires 16 <= v.end && v.end + n * HopWidth(v.md.instructionBitmap, v.md.domainInstructions) <= |x|
  {
    Reported(Report.NO_FLOWKEY.(flow_id := v.common.flowID),
             Report.Report(HopsAt(x, v.end, n, v.md.instructionBitmap, v.md.domainInstructions),
                           PACKET_TYPE_SCION, x[8..v.end - 8]),
             Text.TopicName(Text.PackAddress(v.addr.dstISD, v.addr.dstAS), nodeID))
  }

  /** What the controller makes of a CPU copy, in terms of the headers it carries. A shim that claims less than its MD
      header stands for no hops, and one byte more than the packet has can be read: the terminating zero. */
  lemma CpuCopyDecodes(x: seq<byte>, v: CpuView, nodeID: u32)
    requires v.Describes(x)
    ensures var words := v.shim.length as int - 3;
      Decoded(x, nodeID) ==
      if v.md.hopML == 0 then Undefined
      else if words % v.md.hopML != 0 then NotHandled
      else
        var n := if words < 0 then 0 else words / v.md.hopML;
        if v.end + n * HopWidth(v.md.instructionBitmap, v.md.domainInstructions) > |x| + 1 then Undefined
        else ReportOf(CStr(x), v, n, nodeID)
  {
    ZeroAfter(x, v);
    DecodedSizes(x, v, nodeID);
    CpuOffsets(CStr(x), v);
    Pow256Values();
    hide Decoded;
    hide CpuView.Describes;
    hide Take;
    hide HopsAt;
    hide Text.TopicName;
    hide Text.PackAddress;
    hide HopWidth;
    hide Pow256;
    if v.md.hopML > 0 {
      TruncExact(v.shim.length as int - 3, v.md.hopML);
    }
  }

  /** Whatever a packet-in holds, only a payload that begins with INT in ASCII and has the announced headers is
      decoded. */
  lemma OnlyMarked(x: seq<byte>, nodeID: u32)
    requires !Decoded(x, nodeID).NotHandled?
    ensures |x| >= 16 && x[..8] == [0, 0, 0, 0, 0, 'I' as int, 'N' as int, 'T' as int]
    ensures NatOf(x[8..16]) <= |x| - 16
  {
    hide NatOf;
    hide DecodedStack;
    assert CStr(x)[0..8] == x[..8] && CStr(x)[8..16] == x[8..16];
    MarkerBytes(x[..8]);
  }

  lemma MarkerBytes(b: seq<byte>)
    requires |b| == 8 && NatOf(b) == 0x494e54
    ensures b == [0, 0, 0, 0, 0, 'I' as int, 'N' as int, 'T' as int]
  {
    var m := [0, 0, 0, 0, 0, 0x49, 0x4e, 0x54];
    assert NatOf(m) == 0x494e54 by {
      LeadingZeros(5, [0x49, 0x4e, 0x54]);
      assert m == seq(5, i => 0) + [0x49, 0x4e, 0x54];
      ThreeBytes();
    }
    ReencodeResizes(8, b);
    ReencodeResizes(8, m);
    assert Resize(8, b) == b && Resize(8, m) == m;
    hide NatOf;
  }

  lemma ThreeBytes()
    ensures NatOf([0x49, 0x4e, 0x54]) == 0x494e54
  {
    assert [0x49, 0x4e, 0x54][..2] == [0x49, 0x4e] && [0x49, 0x4e][..1] == [0x49] && [0x49][..0] == [];
    assert NatOf([0x49]) == 0x49;
    assert NatOf([0x49, 0x4e]) == 0x494e;
  }

  lemma ZeroAfter(x: seq<byte>, v: CpuView)
    requires v.Describes(x)
    ensures v.Describes(CStr(x)) && |CStr(x)| == |x| + 1
  {
    hide IntCpu.Bytes;
    hide ScionCommon.Bytes;
    hide AddrCommon.Bytes;
    hide IntShim.Bytes;
    hide IntMd.Bytes;
    var y := CStr(x);
    assert y[0..16] == x[0..16] && y[16..28] == x[16..28] && y[28..44] == x[28..44];
    assert y[v.end - 16..v.end - 12] == x[v.end - 16..v.end - 12];
    assert y[v.end - 12..v.end] == x[v.end - 12..v.end];
  }

  lemma DecodedSizes(x: seq<byte>, v: CpuView, nodeID: u32)
    requires v.Describes(x)
    ensures 36 <= |x| && 16 <= v.end <= |x| && |CStr(x)| == |x| + 1
    ensures Decoded(x, nodeID) == DecodedStack(CStr(x), nodeID, v.end, v.shim.length as int - 3, v.md.hopML,
                                               v.md.instructionBitmap, v.md.domainInstructions)
  {
    hide Take;
    hide Decoded;
    hide DecodedStack;
    ZeroAfter(x, v);
    CpuOffsets(CStr(x), v);
    DecodedFrom(x, nodeID, v.end, v.shim.length, v.md.hopML, v.md.instructionBitmap, v.md.domainInstructions);
  }

  lemma DecodedFrom(x: seq<byte>, nodeID: u32, end: nat, length: byte, hopML: u5, bitmap: u16, domain: u16)
    requires 68 <= end <= |x| && Take(8, CStr(x), 0) == Decoder.INT_IDENTIFIER && Take(8, CStr(x), 8) == end - 16
    requires Take(1, CStr(x), end - 15) == length && Take(1, CStr(x), end - 10) % 32 == hopML
    requires Take(2, CStr(x), end - 8) == bitmap && Take(2, CStr(x), end - 4) == domain
    ensures Decoded(x, nodeID) == DecodedStack(CStr(x), nodeID, end, length as int - 3, hopML, bitmap, domain)
  {
    hide Take;
    hide DecodedStack;
  }

  /** Truncated and Euclidean division leave a remainder for the same numbers. */
  lemma TruncExact(a: int, b: nat)
    requires b > 0
    ensures TruncMod(a, b) == 0 <==> a % b == 0
  {
    if a < 0 {
      NegatedRemainder(a, b);
    }
  }

  lemma NegatedRemainder(a: int, b: nat)
    requires b > 0
    ensures a % b == 0 <==> -a % b == 0
  {
    var q := a / b;
    assert a == q * b + a % b;
    if a % b == 0 {
      Multiple(-a, -q, b);
    } else {
      assert -a == -(q + 1) * b + (b - a % b);
      Remainder(-a, -(q + 1), b - a % b, b);
    }
  }

  lemma Multiple(a: int, q: int, b: nat)
    requires b > 0 && a == q * b
    ensures a % b == 0
  {
    Remainder(a, q, 0, b);
  }

  lemma SmallMultiple(d: int, b: nat)
    ensures d * b == 0 || d * b >= b || d * b <= 0 - b
  {
    if d >= 1 {
      assert d * b >= b;
    } else if d <= -1 {
      assert (0 - d) * b >= b;
    }
  }

  lemma Remainder(a: int, q: int, r: nat, b: nat)
    requires r < b && a == q * b + r
    ensures a % b == r
  {
    var d := a / b - q;
    assert a == (a / b) * b + a % b;
    assert d * b == r - a % b;
    SmallMultiple(d, b);
  }

  /** The hop size announced in the header is the one the bitmaps imply to the decoder. */
  predicate HopSizeAgrees(md: IntMd) {
    md.hopML > 0 && 4 * md.hopML == HopWidth(md.instructionBitmap, md.domainInstructions)
  }

  lemma WordsToBytes(n: nat, k: nat)
    ensures n * (4 * k) == 4 * (n * k)
  {
  }

  /** A stack of whole hops whose size is what the bitmaps say is decoded hop by hop to its very end: no read leaves the
      payload, hop i starts 4 * hopML * i bytes after the headers. */
  lemma StackDecodes(x: seq<byte>, v: CpuView, nodeID: u32)
    requires v.Describes(x) && v.shim.length >= 3 && HopSizeAgrees(v.md) && v.end + 4 * (v.shim.length - 3) <= |x|
    requires (v.shim.length - 3) % v.md.hopML == 0
    ensures var n := (v.shim.length - 3) / v.md.hopML;
      && v.end + n * HopWidth(v.md.instructionBitmap, v.md.domainInstructions) == v.end + 4 * (v.shim.length - 3)
      && Decoded(x, nodeID) == ReportOf(CStr(x), v, n, nodeID)
  {
    hide CpuView.Describes;
    hide HopWidth;
    hide Decoded;
    hide HopsAt;
    var words := v.shim.length - 3;
    var n := words / v.md.hopML;
    assert words == n * v.md.hopML;
    WordsToBytes(n, v.md.hopML);
    CpuCopyDecodes(x, v, nodeID);
  }
}
