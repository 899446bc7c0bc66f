/** From the INT source's switch to the report the sink's controller sends out. */
module EndToEnd {
  import opened Bits
  import opened Headers
  import opened Parser
  import opened IntSwitch
  import opened SourceSink
  import Report
  import Wire
  import ReportProofs
  import Text
  import opened Decoder
  import opened CpuPacket

  //////////////////////////////////////////////////////////////////////
  // The one-hop stack of an INT source
  //////////////////////////////////////////////////////////////////////

  /** The node-id, AS and utilisation tables hit exactly when their flag is 1. */
  ghost predicate FlagTables(t: Tables, nodeID: u32, asn: u64) {
    && t.nodeId == map[1 := nodeID]
    && t.asAddr == map[1 := asn]
    && forall p: u9 :: (1, p) in t.txUtil && (0, p) !in t.txUtil
  }

  /** No bit is set for which the decoder reads a field that the data plane does not write: bitmap & 0x7280 == 0. */
  predicate Supported(instr: u16) {
    !Bit(instr, 14) && !Bit(instr, 13) && !Bit(instr, 12) && !Bit(instr, 9) && !Bit(instr, 7)
  }

  /** What the report has to say about the source's hop: times in nanoseconds, without overflow. */
  function Telemetry(instr: u16, domain: u16, std: Std, nodeID: u32, asn: u64, util: u32): Report.Hop {
    Report.Hop(if Bit(domain, 0) then asn else 0,
               if Bit(instr, 15) then nodeID else 0,
               Metadata(instr, std, util))
  }

  /** Types 4, 5 and 7: INGRESS_TIMESTAMP, EGRESS_TIMESTAMP and EGRESS_TX_UTILIZATION. */
  function Metadata(instr: u16, std: Std, util: u32): map<u32, seq<byte>> {
    (if Bit(instr, 11) then map[4 := BytesOf(8, std.ingressTime * 1000)] else map[])
    + (if Bit(instr, 10) then map[5 := BytesOf(8, std.egressTime * 1000)] else map[])
    + (if Bit(instr, 8) then map[7 := BytesOf(4, util)] else map[])
  }

  function Width(present: bool, n: nat): nat {
    if present then n else 0
  }

  lemma OffsetStep(instr: u16, b: nat, n: nat)
    requires 1 <= b <= 15 && n == FieldWidth(b)
    ensures Before(instr, b - 1) == Before(instr, b) + Width(Bit(instr, b), n)
  {
    hide Bit;
    hide FieldWidth;
  }

  /** Where the decoder looks, bit by bit. */
  lemma Offsets(instr: u16, domain: u16)
    ensures Before(instr, 14) == Width(Bit(instr, 15), 4)
    ensures Before(instr, 11)
        == Before(instr, 14) + Width(Bit(instr, 14), 4) + Width(Bit(instr, 13), 4) + Width(Bit(instr, 12), 4)
    ensures Before(instr, 10) == Before(instr, 11) + Width(Bit(instr, 11), 8)
    ensures Before(instr, 9) == Before(instr, 10) + Width(Bit(instr, 10), 8)
    ensures Before(instr, 8) == Before(instr, 9) + Width(Bit(instr, 9), 8)
    ensures Before(instr, 7) == Before(instr, 8) + Width(Bit(instr, 8), 4)
    ensures Before(instr, 6) == Before(instr, 7) + Width(Bit(instr, 7), 4)
    ensures HopWidth(instr, domain) == Before(instr, 6) + Width(Bit(domain, 0), 8)
  {
    assert Before(instr, 15) == 0;
    hide Bit;
    hide Before;
    hide Width;
    hide HopWidth;
    DomainWidth(instr, domain);
    OffsetStep(instr, 15, 4);
    OffsetStep(instr, 14, 4);
    OffsetStep(instr, 13, 4);
    OffsetStep(instr, 12, 4);
    OffsetStep(instr, 11, 8);
    OffsetStep(instr, 10, 8);
    OffsetStep(instr, 9, 8);
    OffsetStep(instr, 8, 4);
    OffsetStep(instr, 7, 4);
  }

  lemma DomainWidth(instr: u16, domain: u16)
    ensures HopWidth(instr, domain) == Before(instr, 6) + Width(Bit(domain, 0), 8)
  {
    hide Bit;
    hide Before;
  }

  /** The decoder's hop size is the encoder's for exactly the supported bitmaps; for all others it is larger. */
  lemma HopSizesAgree(instr: u16, domain: u16, t: Tables, std: Std, nodeID: u32, asn: u64)
    requires FlagTables(t, nodeID, asn)
    ensures HopWidth(instr, domain) == 4 * Words(Hop(instr, domain, t, std)) <==> Supported(instr)
    ensures HopWidth(instr, domain) >= 4 * Words(Hop(instr, domain, t, std))
  {
    Offsets(instr, domain);
    HopWords(instr, domain, t, std, nodeID, asn);
    hide Bit;
    hide Before;
    hide HopWidth;
    hide Hop;
    hide FlagTables;
    hide Words;
  }

  lemma HopWords(instr: u16, domain: u16, t: Tables, std: Std, nodeID: u32, asn: u64)
    requires FlagTables(t, nodeID, asn)
    ensures 4 * Words(Hop(instr, domain, t, std)) ==
            Width(Bit(instr, 15), 4) + Width(Bit(instr, 11), 8) + Width(Bit(instr, 10), 8) + Width(Bit(instr, 8), 4)
            + Width(Bit(domain, 0), 8)
  {
    HopFields(instr, domain, t, std, nodeID, asn);
    hide Bit;
    hide Hop;
    hide FlagTables;
  }

  lemma HopFields(instr: u16, domain: u16, t: Tables, std: Std, nodeID: u32, asn: u64)
    requires FlagTables(t, nodeID, asn)
    ensures (1, std.egressPort) in t.txUtil
    ensures Hop(instr, domain, t, std) ==
            IntStack(None, if Bit(instr, 15) then Some(nodeID) else None,
                     if Bit(instr, 11) then Some(std.ingressTime) else None,
                     if Bit(instr, 10) then Some(std.egressTime) else None,
                     if Bit(instr, 8) then Some(t.txUtil[(1, std.egressPort)]) else None,
                     if Bit(domain, 0) then Some(asn) else None)
  {
    hide Bit;
  }

  /** b is what x has at offset pos. */
  predicate At(x: seq<byte>, pos: nat, b: seq<byte>) {
    pos + |b| <= |x| && x[pos..pos + |b|] == b
  }

  function Field(present: bool, n: nat, v: nat): (b: seq<byte>)
    ensures |b| == Width(present, n)
  {
    if present then BytesOf(n, v) else []
  }

  lemma FivePieces(x: seq<byte>, at: nat, a: seq<byte>, b: seq<byte>, c: seq<byte>, d: seq<byte>, e: seq<byte>)
    requires At(x, at, [] + a + b + c + d + e)
    ensures At(x, at, a) && At(x, at + |a|, b) && At(x, at + |a| + |b|, c) && At(x, at + |a| + |b| + |c|, d)
    ensures At(x, at + |a| + |b| + |c| + |d|, e)
  {
    var s := [] + a + b + c + d + e;
    assert s == [] + a + (b + c + d + e) && s == a + b + (c + d + e) && s == (a + b) + c + (d + e);
    assert s == (a + b + c) + d + e && s == (a + b + c + d) + e + [];
    PieceAt(x, at, [], a, b + c + d + e);
    PieceAt(x, at, a, b, c + d + e);
    PieceAt(x, at, a + b, c, d + e);
    PieceAt(x, at, a + b + c, d, e);
    PieceAt(x, at, a + b + c + d, e, []);
  }

  lemma PieceAt(x: seq<byte>, at: nat, a: seq<byte>, b: seq<byte>, c: seq<byte>)
    requires At(x, at, a + b + c)
    ensures At(x, at + |a|, b)
  {
    SubSlice(x, at, at + |a + b + c|, |a|, |a| + |b|);
    Chunk(a, b, c);
  }

  lemma TakeAt(x: seq<byte>, pos: nat, n: nat, v: nat)
    requires v < Pow256(n) && At(x, pos, BytesOf(n, v))
    ensures Take(n, x, pos) == v
  {
    TakeBytes(n, v, x, pos);
  }

  /** The fields of a one-hop stack are where the decoder looks for them. */
  lemma HopPieces(x: seq<byte>, at: nat, instr: u16, domain: u16, t: Tables, std: Std, nodeID: u32, asn: u64)
    requires FlagTables(t, nodeID, asn) && Supported(instr) && At(x, at, Hop(instr, domain, t, std).Bytes())
    ensures (1, std.egressPort) in t.txUtil
    ensures At(x, at, Field(Bit(instr, 15), 4, nodeID))
    ensures At(x, at + Before(instr, 11), Field(Bit(instr, 11), 8, std.ingressTime))
    ensures At(x, at + Before(instr, 10), Field(Bit(instr, 10), 8, std.egressTime))
    ensures At(x, at + Before(instr, 8), Field(Bit(instr, 8), 4, t.txUtil[(1, std.egressPort)]))
    ensures At(x, at + Before(instr, 6), Field(Bit(domain, 0), 8, asn))
  {
    HopFields(instr, domain, t, std, nodeID, asn);
    SupportedOffsets(instr);
    hide Bit;
    hide Before;
    hide Hop;
    hide FlagTables;
    hide At;
    hide BytesOf;
    FivePieces(x, at, Field(Bit(instr, 15), 4, nodeID), Field(Bit(instr, 11), 8, std.ingressTime),
               Field(Bit(instr, 10), 8, std.egressTime), Field(Bit(instr, 8), 4, t.txUtil[(1, std.egressPort)]),
               Field(Bit(domain, 0), 8, asn));
  }

  lemma SupportedOffsets(instr: u16)
    requires Supported(instr)
    ensures Before(instr, 14) == Before(instr, 11) == Width(Bit(instr, 15), 4)
    ensures Before(instr, 10) == Before(instr, 11) + Width(Bit(instr, 11), 8)
    ensures Before(instr, 8) == Before(instr, 10) + Width(Bit(instr, 10), 8)
    ensures Before(instr, 6) == Before(instr, 8) + Width(Bit(instr, 8), 4)
  {
    Offsets(instr, 0);
    hide Bit;
    hide Before;
    hide HopWidth;
  }

  /** What the source wrote is what the controller reads. */
  lemma HopDecodes(x: seq<byte>, at: nat, instr: u16, domain: u16, t: Tables, std: Std, nodeID: u32, asn: u64)
    requires FlagTables(t, nodeID, asn) && Supported(instr) && at + HopWidth(instr, domain) <= |x|
    requires At(x, at, Hop(instr, domain, t, std).Bytes())
    ensures (1, std.egressPort) in t.txUtil
    ensures HopAt(x, at, instr, domain) == Telemetry(instr, domain, std, nodeID, asn, t.txUtil[(1, std.egressPort)])
  {
    hide Bit;
    hide Before;
    hide HopWidth;
    hide Hop;
    hide HopAt;
    hide FlagTables;
    hide At;
    hide MetaUpTo;
    hide Metadata;
    hide Supported;
    hide BytesOf;
    HopPieces(x, at, instr, domain, t, std, nodeID, asn);
    var util := t.txUtil[(1, std.egressPort)];
    BeforeInside(instr, domain);
    MetaDecodes(x, at, instr, std, util);
    ScalarsDecode(x, at, instr, domain, nodeID, asn);
  }

  lemma ScalarsDecode(x: seq<byte>, at: nat, instr: u16, domain: u16, nodeID: u32, asn: u64)
    requires at + HopWidth(instr, domain) <= |x|
    requires At(x, at, Field(Bit(instr, 15), 4, nodeID)) && At(x, at + Before(instr, 6), Field(Bit(domain, 0), 8, asn))
    ensures HopAt(x, at, instr, domain) ==
            Report.Hop(if Bit(domain, 0) then asn else 0, if Bit(instr, 15) then nodeID else 0,
                       MetaUpTo(x, at, instr, 8))
  {
    Pow256Values();
    BeforeInside(instr, domain);
    hide Bit;
    hide Before;
    hide HopWidth;
    hide At;
    hide Take;
    hide Pow256;
    hide MetaUpTo;
    hide BytesOf;
    if Bit(instr, 15) {
      TakeAt(x, at, 4, nodeID);
    }
    if Bit(domain, 0) {
      TakeAt(x, at + Before(instr, 6), 8, asn);
    }
  }

  lemma BeforeInside(instr: u16, domain: u16)
    ensures Before(instr, 6) <= HopWidth(instr, domain)
  {
    hide Before;
    hide Bit;
  }

  lemma MetaDecodes(x: seq<byte>, at: nat, instr: u16, std: Std, util: u32)
    requires Supported(instr) && at + Before(instr, 6) <= |x|
    requires At(x, at + Before(instr, 11), Field(Bit(instr, 11), 8, std.ingressTime))
    requires At(x, at + Before(instr, 10), Field(Bit(instr, 10), 8, std.egressTime))
    requires At(x, at + Before(instr, 8), Field(Bit(instr, 8), 4, util))
    ensures MetaUpTo(x, at, instr, 8) == Metadata(instr, std, util)
  {
    hide Bit;
    hide Before;
    hide At;
    hide MetaUpTo;
    hide MetaBytes;
    hide BytesOf;
    hide Metadata;
    hide Supported;
    hide FieldWidth;
    MetaEntries(x, at, instr);
    if Bit(instr, 11) {
      TimeDecodes(x, at, instr, 4, std.ingressTime);
    }
    if Bit(instr, 10) {
      TimeDecodes(x, at, instr, 5, std.egressTime);
    }
    if Bit(instr, 8) {
      UtilDecodes(x, at, instr, util);
    }
    MetadataEntries(instr, std, util);
    SameEntries(MetaUpTo(x, at, instr, 8), Metadata(instr, std, util));
  }

  lemma MetadataEntries(instr: u16, std: Std, util: u32)
    ensures var m := Metadata(instr, std, util);
      && (forall k :: k in m ==> k in {4, 5, 7})
      && (4 in m <==> Bit(instr, 11)) && (5 in m <==> Bit(instr, 10)) && (7 in m <==> Bit(instr, 8))
      && (4 in m ==> m[4] == BytesOf(8, std.ingressTime * 1000))
      && (5 in m ==> m[5] == BytesOf(8, std.egressTime * 1000))
      && (7 in m ==> m[7] == BytesOf(4, util))
  {
    hide Bit;
    hide BytesOf;
  }

  lemma SameEntries(m: map<u32, seq<byte>>, n: map<u32, seq<byte>>)
    requires forall k :: k in m || k in n ==> k in {4, 5, 7}
    requires (4 in m <==> 4 in n) && (5 in m <==> 5 in n) && (7 in m <==> 7 in n)
    requires (4 in m ==> m[4] == n[4]) && (5 in m ==> m[5] == n[5]) && (7 in m ==> m[7] == n[7])
    ensures m == n
  {
  }

  /** The metadata entries of a supported bitmap. */
  lemma MetaEntries(x: seq<byte>, at: nat, instr: u16)
    requires Supported(instr) && at + Before(instr, 6) <= |x|
    ensures forall b | 7 <= b <= 14 && Bit(instr, b) :: at + Before(instr, b) + FieldWidth(b) <= |x|
    ensures forall k :: k in MetaUpTo(x, at, instr, 8) ==> k in {4, 5, 7}
    ensures 4 in MetaUpTo(x, at, instr, 8) <==> Bit(instr, 11)
    ensures 5 in MetaUpTo(x, at, instr, 8) <==> Bit(instr, 10)
    ensures 7 in MetaUpTo(x, at, instr, 8) <==> Bit(instr, 8)
    ensures Bit(instr, 11) ==> MetaUpTo(x, at, instr, 8)[4] == MetaBytes(x, at, instr, 4)
    ensures Bit(instr, 10) ==> MetaUpTo(x, at, instr, 8)[5] == MetaBytes(x, at, instr, 5)
    ensures Bit(instr, 8) ==> MetaUpTo(x, at, instr, 8)[7] == MetaBytes(x, at, instr, 7)
  {
    hide Bit;
    hide Before;
    hide MetaBytes;
    MetaInside(x, at, instr, 8);
  }

  lemma TimeDecodes(x: seq<byte>, at: nat, instr: u16, kind: nat, time: u48)
    requires kind == 4 || kind == 5
    requires Bit(instr, 15 - kind) && At(x, at + Before(instr, 15 - kind), BytesOf(8, time))
    ensures MetaBytes(x, at, instr, kind) == BytesOf(8, time * 1000)
  {
    hide Bit;
    hide Before;
    hide Take;
    hide BytesOf;
    hide Pow256;
    var pos := at + Before(instr, 15 - kind);
    AtInside(x, pos, BytesOf(8, time));
    hide At;
    Pow256Values();
    TakeAt(x, pos, 8, time);
    NoOverflow(time);
  }

  lemma AtInside(x: seq<byte>, pos: nat, b: seq<byte>)
    requires At(x, pos, b)
    ensures pos + |b| <= |x|
  {
  }

  lemma NoOverflow(time: u48)
    ensures time * 1000 % 0x1_0000_0000_0000_0000 == time * 1000
  {
  }

  lemma UtilDecodes(x: seq<byte>, at: nat, instr: u16, util: u32)
    requires Bit(instr, 8) && At(x, at + Before(instr, 8), BytesOf(4, util))
    ensures MetaBytes(x, at, instr, 7) == BytesOf(4, util)
  {
    hide Bit;
    hide Before;
    hide BytesOf;
  }

  //////////////////////////////////////////////////////////////////////
  // Source, wire, sink, controller
  //////////////////////////////////////////////////////////////////////

  /** What the sink's parser finds in the source's packet, as far as the controller will look. */
  lemma SinkView(h: Headers, rest: seq<byte>, instr: u16, domain: u16, hop: IntStack, csum: seq<byte> -> u16)
    requires PlainUdp(h) && hop.pre == None
    ensures var g := AtSink(WithChecksums(Inserted(h, instr, domain, hop), rest, csum), hop,
        h.scion.common.value.payloadLen, rest);
      && g.inner.md.Some? && g.inner.shim.Some? && g.scion.common.Some?
      && g.scion.addr == h.scion.addr && g.scion.addr.Some?
      && g.scion.common.value.flowID == h.scion.common.value.flowID
      && g.inner.shim.value.length == 3 + Words(hop) && g.inner.md.value.hopML == Words(hop)
      && g.inner.md.value.instructionBitmap == instr && g.inner.md.value.domainInstructions == domain
      && g.inner.shim.value.kind == 1 && g.inner.shim.value.npt == 1 && g.inner.shim.value.r == 0
      && g.inner.shim.value.udpPort == h.inner.udp.value.dstPort
      && g.inner.md.value.version == 2 && g.inner.md.value.remainingHopCount == 10
      && g.inner.md.value.discard == g.inner.md.value.exceededHopCount == g.inner.md.value.mtuExceeded == 0
      && g.inner.md.value.reserved == 0 && g.inner.md.value.domainFlags == 0
      && g.inner.md.value.domainID == (if domain == 0 then 0 else 1)
      && g.stack.Bytes() == hop.Bytes()
  {
    hide Shape;
    hide WithChecksums;
    hide AtSink;
    hide Inserted;
    hide IntStack.Bytes;
    PlainUdpHasNoInt(h);
    PlainUdpHasScion(h);
    HopSize(hop);
    InsertedView(h, instr, domain, hop);
    var g := Inserted(h, instr, domain, hop);
    ChecksumsKeepShape(g, rest, csum);
    AtSinkView(WithChecksums(g, rest, csum), hop, h.scion.common.value.payloadLen, rest);
  }

  lemma PlainUdpHasScion(h: Headers)
    requires PlainUdp(h)
    ensures h.scion.common.Some? && h.scion.addr.Some? && h.stack.pre == None
  {
  }

  lemma InsertedView(h: Headers, instr: u16, domain: u16, hop: IntStack)
    requires h.inner.udp.Some? && h.scion.common.Some?
    ensures var g := Inserted(h, instr, domain, hop);
      && g.inner.md.Some? && g.inner.shim.Some? && g.scion.common.Some? && g.scion.addr == h.scion.addr
      && g.scion.common.value.flowID == h.scion.common.value.flowID
      && g.inner.shim.value == IntShim(1, 1, 0, 3 + Words(hop), h.inner.udp.value.dstPort)
      && g.inner.md.value
         == IntMd(2, 0, 0, 0, 0, Words(hop), 10, instr, if domain == 0 then 0 else 1, domain, 0)
  {
  }

  lemma AtSinkView(h: Headers, hop: IntStack, payloadLen: u16, rest: seq<byte>)
    requires Words(hop) == 0 ==> hop.Bytes() == []
    ensures var g := AtSink(h, hop, payloadLen, rest);
      g.scion == h.scion && g.inner == h.inner && g.stack.Bytes() == hop.Bytes()
  {
    assert Words(hop) != 0 ==> AtSink(h, hop, payloadLen, rest).stack == NO_STACK.(pre := Some(hop.Bytes()));
    hide IntStack.Bytes;
    PreBytes(hop.Bytes());
    EmptyStack();
  }

  lemma PreBytes(b: seq<byte>)
    ensures NO_STACK.(pre := Some(b)).Bytes() == b
  {
  }

  /** The CPU copy of the source's packet, made by the sink. */
  lemma SinkCopies(tg: Target, x: seq<byte>, source: Tables, sink: Tables, std: Std, csum: seq<byte> -> u16,
      instr: u16, domain: u16)
    requires Received(tg, x).Some? && PlainUdp(Received(tg, x).value.hdr)
    requires Lookup(Received(tg, x).value.hdr, source) == Some(InsertInt(instr, domain))
    requires Lookup(Received(tg, x).value.hdr, sink) == Some(CloneInt)
    requires Usable(tg, Received(tg, x).value.hdr.scion.common.value.payloadLen, Hop(instr, domain, source, std),
                    Received(tg, x).value.rest)
    ensures var h, rest := Received(tg, x).value.hdr, Received(tg, x).value.rest;
      var hop := Hop(instr, domain, source, std);
      var len := h.scion.common.value.payloadLen;
      var g := AtSink(WithChecksums(Inserted(h, instr, domain, hop), rest, csum), hop, len, rest);
      var y := Output(tg, x, source, std, csum);
      && y.Some? && Extracted(g) && g.inner.shim.Some?
      && ToCpu(tg, y.value, sink, csum) == Some(CpuBytes(g, rest[PayloadSize(len, hop, rest)..]))
  {
    var h, rest := Received(tg, x).value.hdr, Received(tg, x).value.rest;
    var hop := Hop(instr, domain, source, std);
    hide Received;
    hide Emit;
    hide WithChecksums;
    hide Inserted;
    hide AtSink;
    hide Shape;
    hide Extracted;
    hide ToCpu;
    hide Usable;
    hide Headers.ScionToMd;
    SinkParsesSource(tg, h, rest, instr, domain, hop, csum);
    LookupAtSink(h, instr, domain, hop, rest, csum, sink);
    CpuCopyBytes(tg, Output(tg, x, source, std, csum).value, sink, csum);
  }

  /** A bit without a field in the data plane leaves a metadata entry that the source never wrote. */
  lemma UnsupportedShows(x: seq<byte>, at: nat, instr: u16, domain: u16, std: Std, nodeID: u32, asn: u64, util: u32)
    requires !Supported(instr) && at + HopWidth(instr, domain) <= |x|
    ensures HopAt(x, at, instr, domain) != Telemetry(instr, domain, std, nodeID, asn, util)
  {
    BeforeInside(instr, domain);
    MetaKeys(x, at, instr);
    MetadataEntries(instr, std, util);
    hide Bit;
    hide Before;
    hide HopWidth;
    hide Metadata;
    hide MetaUpTo;
    var b: nat :| b in {14, 13, 12, 9, 7} && Bit(instr, b);
    var kind: u32 := 15 - b;
    assert kind in MetaUpTo(x, at, instr, 8) && kind !in Metadata(instr, std, util);
  }

  lemma MetaKeys(x: seq<byte>, at: nat, instr: u16)
    requires at + Before(instr, 6) <= |x|
    ensures forall k: u32 | 1 <= k <= 8 && Bit(instr, 15 - k) :: k in MetaUpTo(x, at, instr, 8)
  {
    hide Bit;
    hide Before;
    hide MetaBytes;
  }

  /** A report of exactly one hop, for a flow, on a topic. */
  predicate ReportsHop(o: Outcome, flowID: u20, hop: Report.Hop, topic: string) {
    && o.Reported?
    && o.key == Report.NO_FLOWKEY.(flow_id := flowID)
    && o.report.hops == [hop] && o.report.packet_type == PACKET_TYPE_SCION
    && o.topic == topic
  }

  function TopicOf(a: AddrCommon, nodeID: u32): string {
    Text.TopicName(Text.PackAddress(a.dstISD, a.dstAS), nodeID)
  }

  /** A stack announced as one hop is decoded as one hop, wherever the bitmaps make the decoder look. */
  lemma OneHop(x: seq<byte>, v: CpuView, sinkNode: u32)
    requires v.Describes(x) && v.shim.length == 3 + v.md.hopML
    ensures var width := HopWidth(v.md.instructionBitmap, v.md.domainInstructions);
      if v.md.hopML == 0 || v.end + width > |x| + 1 then Decoded(x, sinkNode) == Undefined
      else ReportsHop(Decoded(x, sinkNode), v.common.flowID,
                      HopAt(CStr(x), v.end, v.md.instructionBitmap, v.md.domainInstructions), TopicOf(v.addr, sinkNode))
  {
    hide Decoded;
    hide HopAt;
    hide HopWidth;
    hide CpuView.Describes;
    hide Text.TopicName;
    hide Text.PackAddress;
    CpuCopyDecodes(x, v, sinkNode);
  }

  /** Decoding a CPU copy that carries the stack of one source and announces its true size. */
  lemma OneHopDecodes(x: seq<byte>, v: CpuView, t: Tables, std: Std, nodeID: u32, asn: u64, sinkNode: u32)
    requires v.Describes(x) && FlagTables(t, nodeID, asn)
    requires var hop := Hop(v.md.instructionBitmap, v.md.domainInstructions, t, std);
      v.shim.length == 3 + Words(hop) && v.md.hopML == Words(hop) && At(x, v.end, hop.Bytes())
    ensures (1, std.egressPort) in t.txUtil
    ensures Decoded(x, sinkNode) == Undefined
            <==> v.md.hopML == 0 || v.end + HopWidth(v.md.instructionBitmap, v.md.domainInstructions) > |x| + 1
    ensures ReportsHop(Decoded(x, sinkNode), v.common.flowID,
                       Telemetry(v.md.instructionBitmap, v.md.domainInstructions, std, nodeID, asn,
                           t.txUtil[(1, std.egressPort)]),
                       TopicOf(v.addr, sinkNode))
            <==> Supported(v.md.instructionBitmap) && v.md.hopML > 0
  {
    var instr, domain := v.md.instructionBitmap, v.md.domainInstructions;
    AtCStr(x, v.end, Hop(instr, domain, t, std).Bytes());
    HopTelemetry(CStr(x), v.end, instr, domain, t, std, nodeID, asn);
    hide FlagTables;
    hide Hop;
    hide Words;
    hide Decoded;
    hide HopAt;
    hide HopWidth;
    hide CpuView.Describes;
    hide Supported;
    hide Telemetry;
    hide TopicOf;
    hide At;
    hide IntStack.Bytes;
    OneHop(x, v, sinkNode);
  }

  lemma AtCStr(x: seq<byte>, pos: nat, b: seq<byte>)
    requires At(x, pos, b)
    ensures At(CStr(x), pos, b)
  {
  }

  /** The bytes of a source's hop decode to its telemetry exactly for the supported bitmaps. */
  lemma HopTelemetry(x: seq<byte>, at: nat, instr: u16, domain: u16, t: Tables, std: Std, nodeID: u32, asn: u64)
    requires FlagTables(t, nodeID, asn) && At(x, at, Hop(instr, domain, t, std).Bytes())
    ensures (1, std.egressPort) in t.txUtil
    ensures Supported(instr) ==> at + HopWidth(instr, domain) <= |x|
    ensures at + HopWidth(instr, domain) <= |x| ==>
              (HopAt(x, at, instr, domain) == Telemetry(instr, domain, std, nodeID, asn, t.txUtil[(1, std.egressPort)])
               <==> Supported(instr))
  {
    HopSizesAgree(instr, domain, t, std, nodeID, asn);
    HopFields(instr, domain, t, std, nodeID, asn);
    HopSize(Hop(instr, domain, t, std));
    hide FlagTables;
    hide Hop;
    hide Words;
    hide HopAt;
    hide HopWidth;
    hide Supported;
    hide Telemetry;
    hide IntStack.Bytes;
    if Supported(instr) {
      HopDecodes(x, at, instr, domain, t, std, nodeID, asn);
    } else if at + HopWidth(instr, domain) <= |x| {
      UnsupportedShows(x, at, instr, domain, std, nodeID, asn, t.txUtil[(1, std.egressPort)]);
    }
  }

  /** The bytes the sink's parser leaves behind the payload it extracts: those the SCION length does not cover, or all
      of them when it cannot split the packet. */
  function Unsplit(tg: Target, x: seq<byte>, instr: u16, domain: u16, source: Tables, std: Std): seq<byte>
    requires Received(tg, x).Some? && PlainUdp(Received(tg, x).value.hdr)
  {
    var p := Received(tg, x).value;
    p.rest[PayloadSize(p.hdr.scion.common.value.payloadLen, Hop(instr, domain, source, std), p.rest)..]
  }

  /** A packet goes through an INT source and an INT sink, and the sink's controller handles the CPU copy: the report
      tells exactly what the source measured if and only if the bitmap has only supported bits and wrote some field.
      When no field was written, the controller divides by zero; when the bits without fields make a hop larger than
      what follows the headers and the terminating zero, it reads past the end. */
  lemma EndToEndTelemetry(tg: Target, x: seq<byte>, source: Tables, sink: Tables, std: Std, csum: seq<byte> -> u16,
                          instr: u16, domain: u16, nodeID: u32, asn: u64, sinkNode: u32)
    requires Received(tg, x).Some? && PlainUdp(Received(tg, x).value.hdr) && FlagTables(source, nodeID, asn)
    requires Lookup(Received(tg, x).value.hdr, source) == Some(InsertInt(instr, domain))
    requires Lookup(Received(tg, x).value.hdr, sink) == Some(CloneInt)
    requires Usable(tg, Received(tg, x).value.hdr.scion.common.value.payloadLen, Hop(instr, domain, source, std),
                    Received(tg, x).value.rest)
    ensures var h := Received(tg, x).value.hdr;
      var words := Words(Hop(instr, domain, source, std));
      var y := Output(tg, x, source, std, csum);
      && y.Some? && ToCpu(tg, y.value, sink, csum).Some? && (1, std.egressPort) in source.txUtil && h.scion.addr.Some?
      && var o := Decoded(ToCpu(tg, y.value, sink, csum).value, sinkNode);
      && (o == Undefined <==>
          words == 0 || HopWidth(instr, domain) > 4 * words + |Unsplit(tg, x, instr, domain, source, std)| + 1)
      && (ReportsHop(o, h.scion.common.value.flowID,
                     Telemetry(instr, domain, std, nodeID, asn, source.txUtil[(1, std.egressPort)]),
                     TopicOf(h.scion.addr.value, sinkNode))
          <==> Supported(instr) && words > 0)
  {
    var h, rest := Received(tg, x).value.hdr, Received(tg, x).value.rest;
    var hop := Hop(instr, domain, source, std);
    SinkCopies(tg, x, source, sink, std, csum, instr, domain);
    HopFields(instr, domain, source, std, nodeID, asn);
    hide Received;
    hide Output;
    hide ToCpu;
    hide Hop;
    hide FlagTables;
    hide PlainUdp;
    hide Lookup;
    hide AtSink;
    hide WithChecksums;
    hide Inserted;
    hide Words;
    hide Supported;
    hide Telemetry;
    hide ReportsHop;
    hide CpuBytes;
    hide TopicOf;
    hide Decoded;
    hide HopWidth;
    CopyDecodes(h, rest, source, std, csum, instr, domain, nodeID, asn, sinkNode);
  }

  lemma CopyDecodes(h: Headers, rest: seq<byte>, source: Tables, std: Std, csum: seq<byte> -> u16,
                    instr: u16, domain: u16, nodeID: u32, asn: u64, sinkNode: u32)
    requires PlainUdp(h) && FlagTables(source, nodeID, asn)
    requires Extracted(AtSink(WithChecksums(Inserted(h, instr, domain, Hop(instr, domain, source, std)), rest, csum),
                              Hop(instr, domain, source, std), h.scion.common.value.payloadLen, rest))
    ensures var hop := Hop(instr, domain, source, std);
      var len := h.scion.common.value.payloadLen;
      var g := AtSink(WithChecksums(Inserted(h, instr, domain, hop), rest, csum), hop, len, rest);
      var tail := rest[PayloadSize(len, hop, rest)..];
      var o := Decoded(CpuBytes(g, tail), sinkNode);
      && (1, std.egressPort) in source.txUtil && h.scion.addr.Some?
      && (o == Undefined <==> Words(hop) == 0 || HopWidth(instr, domain) > 4 * Words(hop) + |tail| + 1)
      && (ReportsHop(o, h.scion.common.value.flowID,
                     Telemetry(instr, domain, std, nodeID, asn, source.txUtil[(1, std.egressPort)]),
                     TopicOf(h.scion.addr.value, sinkNode))
          <==> Supported(instr) && Words(hop) > 0)
  {
    var hop := Hop(instr, domain, source, std);
    var len := h.scion.common.value.payloadLen;
    var g := AtSink(WithChecksums(Inserted(h, instr, domain, hop), rest, csum), hop, len, rest);
    var tail := rest[PayloadSize(len, hop, rest)..];
    SinkView(h, rest, instr, domain, hop, csum);
    hide Hop;
    hide FlagTables;
    hide Extracted;
    hide AtSink;
    hide WithChecksums;
    hide Inserted;
    hide Words;
    hide Supported;
    hide Telemetry;
    hide ReportsHop;
    hide CpuBytes;
    hide CpuView.Describes;
    hide IntStack.Bytes;
    hide TopicOf;
    hide Decoded;
    hide HopWidth;
    HopSize(hop);
    CpuCopyView(g, tail);
    StackAt(CpuBytes(g, tail), ViewOf(g).end, hop.Bytes(), tail);
    OneHopDecodes(CpuBytes(g, tail), ViewOf(g), source, std, nodeID, asn, sinkNode);
  }

  lemma StackAt(x: seq<byte>, pos: nat, b: seq<byte>, rest: seq<byte>)
    requires pos <= |x| && x[pos..] == b + rest
    ensures At(x, pos, b) && |x| == pos + |b| + |rest|
  {
    assert |x| == pos + |b| + |rest|;
    assert x[pos..][..|b|] == b;
    assert x[pos..pos + |b|] == x[pos..][..|b|];
  }

  /** When the lengths describe the packet, the sink can split it if and only if its UDP payload is at most 8130
      bytes. */
  lemma WellFormedSplits(h: Headers, rest: seq<byte>, hop: IntStack)
    requires PlainUdp(h) && LengthsDescribe(h, rest)
    ensures Splittable(h.scion.common.value.payloadLen, hop, rest) <==> Words(hop) == 0 || |rest| <= 8130
  {
    PlainUdpHasNoInt(h);
    InnerSize(h.inner);
    EmptyStack();
    assert UpperLen(h) == 8;
    hide Shape;
    hide Words;
  }

  /** Whoever parses the two messages the controller sends, with the map entries in any order, reads that one hop. */
  lemma SubscriberReads(o: Outcome, orders: seq<seq<u32>>, flowID: u20, hop: Report.Hop, topic: string)
    requires ReportsHop(o, flowID, hop, topic) && Report.Orders(o.report.hops, orders)
    requires |Report.SerReport(o.report, orders)| <= Wire.MAX_SIZE
    ensures Report.ParseFlowKey(Report.NO_FLOWKEY, Report.SerFlowKey(o.key))
        == Some(Report.NO_FLOWKEY.(flow_id := flowID))
    ensures var r := Report.ParseReport(Report.NO_REPORT, Report.SerReport(o.report, orders));
      r.Some? && r.value.hops == [hop] && r.value.packet_type == PACKET_TYPE_SCION
  {
    ReportProofs.ReportRoundTrip(o.report, orders);
    ReportProofs.FlowKeyRoundTrip(o.key);
  }
}
