/** What INT insertion, forwarding and deletion preserve, over whole packets on the wire. */
module SourceSink {
  import opened Bits
  import opened Headers
  import opened Parser
  import opened IntSwitch

  //////////////////////////////////////////////////////////////////////
  // Sizes
  //////////////////////////////////////////////////////////////////////

  lemma HopSize(s: IntStack)
    requires s.pre == None
    ensures |s.Bytes()| == 4 * Words(s)
  {
  }

  /** The grammar leaves no stack and no payload on a packet without an INT-MD header. */
  predicate PlainUdp(h: Headers) {
    Shape(h) && h.inner.udp.Some? && h.inner.udp.value.dstPort != INT_UDP_PORT
  }

  lemma PlainUdpHasNoInt(h: Headers)
    requires PlainUdp(h)
    ensures ToScion(h.outer) && h.outer.ethernet.Some? && h.outer.ipv4.Some? && h.outer.udp.Some?
    ensures h.inner.shim == None && h.inner.md == None && h.stack == NO_STACK && h.payload == None
  {
  }

  //////////////////////////////////////////////////////////////////////
  // Length accounting
  //////////////////////////////////////////////////////////////////////

  /** The four length fields describe the bytes that are really there. */
  predicate LengthsDescribe(h: Headers, rest: seq<byte>) {
    && h.outer.ipv4.Some? && h.outer.udp.Some? && h.scion.common.Some? && h.inner.udp.Some?
    && h.outer.ipv4.value.totalLen == 28 + |h.FromScion()| + |rest|
    && h.outer.udp.value.len == 8 + |h.FromScion()| + |rest|
    && h.scion.common.value.payloadLen == UpperLen(h) + |rest|
    && h.inner.udp.value.len == UpperLen(h) + |rest|
  }

  /** Bytes from the inner UDP header on. */
  function UpperLen(h: Headers): nat {
    |h.inner.Bytes()| + |h.stack.Bytes()| + |Raw(h.payload)|
  }

  /** Insertion keeps the lengths right exactly when the IPv4 length has room. */
  lemma InsertKeepsLengths(h: Headers, rest: seq<byte>, instr: u16, domain: u16, hop: IntStack)
    requires PlainUdp(h) && LengthsDescribe(h, rest) && hop.pre == None
    ensures var h' := Inserted(h, instr, domain, hop);
      && |h'.Deparse()| == |h.Deparse()| + 16 + 4 * Words(hop)
      && (LengthsDescribe(h', rest) <==> h.outer.ipv4.value.totalLen + 16 + 4 * Words(hop) < 0x1_0000)
  {
    hide Shape;
    hide Headers.FromScion;
    hide Headers.Deparse;
    hide Scion.Bytes;
    hide Path.Bytes;
    hide Inner.Bytes;
    hide Outer.Bytes;
    hide IntStack.Bytes;
    hide Words;
    hide Mod16;
    PlainUdpHasNoInt(h);
    var h' := Inserted(h, instr, domain, hop);
    HopSize(hop);
    EmptyStack();
    SameSize(h, h');
    InnerSize(h.inner);
    InnerSize(h'.inner);
    Sizes(h);
    Sizes(h');
    var d := 16 + 4 * Words(hop);
    Mod16Exact(h.outer.ipv4.value.totalLen, d, h.outer.ipv4.value.totalLen + d);
    Mod16Exact(h.outer.udp.value.len, d, h.outer.udp.value.len + d);
    Mod16Exact(h.scion.common.value.payloadLen, d, h.scion.common.value.payloadLen + d);
    Mod16Exact(h.inner.udp.value.len, d, h.inner.udp.value.len + d);
  }

  lemma EmptyStack()
    ensures NO_STACK.Bytes() == []
  {
  }

  /** A 16-bit sum is the number w it should be exactly when that number is the unbounded sum. */
  lemma Mod16Exact(v: u16, d: int, w: int)
    requires v + d - 0x1_0000 < w < v + d + 0x1_0000
    ensures Mod16(v + d) == w <==> w == v + d && 0 <= w < 0x1_0000
  {
  }

  lemma Sizes(h: Headers)
    ensures |h.FromScion()| == |h.scion.Bytes()| + |h.path.Bytes()| + UpperLen(h)
    ensures |h.Deparse()| == |h.outer.Bytes()| + (if h.cpu.Some? then 16 else 0) + |h.FromScion()|
  {
    hide Scion.Bytes;
    hide Path.Bytes;
    hide Inner.Bytes;
    hide Outer.Bytes;
    hide IntStack.Bytes;
  }

  lemma InnerSize(i: Inner)
    ensures |i.Bytes()|
         == (if i.udp.Some? then 8 else 0) + (if i.shim.Some? then 4 else 0) + (if i.md.Some? then 12 else 0)
  {
  }

  /** Changing only lengths keeps the size of the SCION and outer headers. */
  lemma SameSize(h: Headers, h': Headers)
    requires h'.path == h.path && h'.cpu == h.cpu
    requires h'.scion.common.Some? == h.scion.common.Some? && h'.scion == h.scion.(common := h'.scion.common)
    requires h'.outer.ipv4.Some? == h.outer.ipv4.Some? && h'.outer.udp.Some? == h.outer.udp.Some?
    requires h'.outer.ethernet == h.outer.ethernet
    ensures |h'.scion.Bytes()| == |h.scion.Bytes()| && |h'.outer.Bytes()| == |h.outer.Bytes()|
  {
  }

  /** Each of the four length fields is k less, modulo 2^16, than what is really there. */
  predicate LengthsShort(h: Headers, rest: seq<byte>, k: int) {
    && h.outer.ipv4.Some? && h.outer.udp.Some? && h.scion.common.Some? && h.inner.udp.Some?
    && h.outer.ipv4.value.totalLen == Mod16(28 + |h.FromScion()| + |rest| - k)
    && h.outer.udp.value.len == Mod16(8 + |h.FromScion()| + |rest| - k)
    && h.scion.common.value.payloadLen == Mod16(UpperLen(h) + |rest| - k)
    && h.inner.udp.value.len == Mod16(UpperLen(h) + |rest| - k)
  }

  /** The bytes of the INT headers that were extracted: shim, MD header and stack. */
  function IntSize(h: Headers): nat {
    (if h.inner.shim.Some? then 4 else 0) + (if h.inner.md.Some? then 12 else 0) + |h.stack.Bytes()|
  }

  /** Deletion takes out the INT headers that were extracted, and takes off the lengths what the shim claims. So it
      keeps the lengths right exactly when the shim claims what was extracted, whatever the type and wherever parsing
      stopped; otherwise all four are wrong by the difference. */
  lemma DeleteKeepsLengths(h: Headers, rest: seq<byte>)
    requires Extracted(h) && h.inner.shim.Some? && LengthsDescribe(h, rest)
    ensures var h' := Deleted(h);
      var claimed := 4 + 4 * h.inner.shim.value.length;
      && |h'.Deparse()| == |h.Deparse()| - IntSize(h)
      && (LengthsDescribe(h', rest) <==> claimed == IntSize(h))
      && LengthsShort(h', rest, claimed - IntSize(h))
  {
    hide Extracted;
    hide Headers.FromScion;
    hide Headers.Deparse;
    hide Scion.Bytes;
    hide Path.Bytes;
    hide Inner.Bytes;
    hide Outer.Bytes;
    hide IntStack.Bytes;
    hide Mod16;
    var len := h.inner.shim.value.length;
    var h' := Deleted(h);
    SameSize(h, h');
    InnerSize(h.inner);
    InnerSize(h'.inner);
    StackSize(h);
    Sizes(h);
    Sizes(h');
    var gone := IntSize(h);
    var d: int := -4 - 4 * len as int;
    Mod16Exact(h.outer.ipv4.value.totalLen, d, h.outer.ipv4.value.totalLen - gone);
    Mod16Exact(h.outer.udp.value.len, d, h.outer.udp.value.len - gone);
    Mod16Exact(h.scion.common.value.payloadLen, d, h.scion.common.value.payloadLen - gone);
    Mod16Exact(h.inner.udp.value.len, d, h.inner.udp.value.len - gone);
  }

  lemma StackSize(h: Headers)
    requires Extracted(h) && h.inner.shim.Some?
    ensures h.stack.(pre := None) == NO_STACK && |NO_STACK.Bytes()| == 0
    ensures if h.stack.pre.Some? then
              && h.inner.md.Some? && 3 < h.inner.shim.value.length <= 68
              && |h.stack.Bytes()| == 4 * (h.inner.shim.value.length - 3)
            else h.stack == NO_STACK
  {
    var len := h.inner.shim.value.length;
    if len < 3 {
      assert StackBits(len) > MAX_STACK;
    }
  }

  /** What the parser extracts of a packet with an MD header is what its shim claims if and only if the claim is at
      least the MD header, at most that and the 65 words that the varbit stack has room for, and the bytes are there. */
  lemma StackAccounted(tg: Target, x: seq<byte>)
    requires Received(tg, x).Some? && Received(tg, x).value.hdr.inner.md.Some?
    ensures var p := Received(tg, x).value;
      && p.hdr.inner.shim.Some?
      && var len := p.hdr.inner.shim.value.length;
      4 + 4 * len == IntSize(p.hdr)
      <==> 3 <= len <= 68 && 4 * (len - 3) <= |p.hdr.stack.Bytes()| + |Raw(p.hdr.payload)| + |p.rest|
  {
    hide Received;
    hide Extracted;
    hide StackReceived;
    hide Raw;
    ReceivedThenDeparse(tg, x);
    StackOfReceived(tg, x);
    var p := Received(tg, x).value;
    MdHasShim(p.hdr);
    StackClaims(tg, p.hdr.inner, p.hdr.scion.common.value.payloadLen,
                p.hdr.stack.Bytes() + Raw(p.hdr.payload) + p.rest);
    StackSize(p.hdr);
    hide IntStack.Bytes;
  }

  lemma MdHasShim(h: Headers)
    requires Extracted(h) && h.inner.md.Some?
    ensures h.inner.shim.Some?
  {
  }

  //////////////////////////////////////////////////////////////////////
  // The source's packet as the sink parses it
  //////////////////////////////////////////////////////////////////////

  /** The sink can split the source's packet: it looks for a payload only when there is a stack, and then the
      length field must have described at most MAX_PAYLOAD bits that are really there. */
  predicate Splittable(payloadLen: u16, hop: IntStack, rest: seq<byte>) {
    Words(hop) == 0 || (8 <= payloadLen <= 8 + MAX_PAYLOAD / 8 && payloadLen - 8 <= |rest|)
  }

  /** The sink goes on with the packet, split or not. */
  predicate Usable(tg: Target, payloadLen: u16, hop: IntStack, rest: seq<byte>) {
    tg.Continues? || Splittable(payloadLen, hop, rest)
  }

  /** The payload bytes the sink extracts: none without a stack, and none when it cannot split the packet. */
  function PayloadSize(payloadLen: u16, hop: IntStack, rest: seq<byte>): (n: nat)
    ensures n <= |rest|
  {
    if Words(hop) == 0 || !Splittable(payloadLen, hop, rest) then 0 else payloadLen - 8
  }

  /** The same bytes, read as one varbit stack and an extracted payload. */
  function AtSink(h: Headers, hop: IntStack, payloadLen: u16, rest: seq<byte>): Headers {
    if Words(hop) == 0 then h.(stack := NO_STACK)
    else h.(stack := NO_STACK.(pre := Some(hop.Bytes())),
            payload := if Splittable(payloadLen, hop, rest) then Some(rest[..PayloadSize(payloadLen, hop, rest)])
                       else None)
  }

  lemma AtSinkSameBytes(h: Headers, hop: IntStack, payloadLen: u16, rest: seq<byte>)
    requires h.stack == hop && hop.pre == None && h.payload == None
    ensures AtSink(h, hop, payloadLen, rest).FromScion() + rest[PayloadSize(payloadLen, hop, rest)..]
         == h.FromScion() + rest
  {
    hide Scion.Bytes;
    hide Path.Bytes;
    hide Inner.Bytes;
    HopSize(hop);
    hide Splittable;
    var m := PayloadSize(payloadLen, hop, rest);
    var g := AtSink(h, hop, payloadLen, rest);
    assert g.stack.Bytes() == hop.Bytes();
    assert g.ScionToMd() == h.ScionToMd();
    assert rest == rest[..m] + rest[m..];
    assert Raw(g.payload) + rest[m..] == rest;
    assert g.FromScion() + rest[m..] == g.ScionToMd() + g.stack.Bytes() + (Raw(g.payload) + rest[m..]);
    assert h.FromScion() + rest == h.ScionToMd() + h.stack.Bytes() + rest;
  }

  /** 32-bit payload length computed at the sink from the source's 16-bit length. */
  lemma SinkPayloadBits(payloadLen: u16, n: nat)
    requires 1 <= n <= 8
    ensures var bits := PayloadBits(Mod16(payloadLen + 16 + 4 * n), 32 * n);
      if 8 <= payloadLen <= 8 + MAX_PAYLOAD / 8 then bits == 8 * (payloadLen - 8) else bits > MAX_PAYLOAD
  {
    var v := payloadLen + 16 + 4 * n;
    if v < 0x1_0000 {
      assert Mod16(v) == v;
      assert v * 8 - 192 - 32 * n == 8 * (payloadLen - 8);
    } else {
      assert Mod16(v) == v - 0x1_0000;
    }
  }

  lemma SinkParsesStack(tg: Target, h: Headers, instr: u16, domain: u16, hop: IntStack, rest: seq<byte>)
    requires PlainUdp(h) && hop.pre == None
    ensures var h' := Inserted(h, instr, domain, hop);
      var len := h.scion.common.value.payloadLen;
      var m := PayloadSize(len, hop, rest);
      StackReceived(tg, h'.inner, h'.scion.common.value.payloadLen, hop.Bytes() + rest) ==
      if !Usable(tg, len, hop, rest) then None
      else Some((AtSink(h', hop, len, rest).stack, AtSink(h', hop, len, rest).payload, rest[m..]))
  {
    PlainUdpHasNoInt(h);
    InsertedFields(h, instr, domain, hop);
    hide Inserted;
    hide Shape;
    hide IntStack.Bytes;
    hide PayloadBits;
    hide StackBits;
    hide Words;
    HopSize(hop);
    var h' := Inserted(h, instr, domain, hop);
    var len := h.scion.common.value.payloadLen;
    if Words(hop) == 0 {
      assert hop.Bytes() + rest == rest && rest[0..] == rest;
    } else {
      SinkPayloadBits(len, Words(hop));
      StackThenPayload(tg, h'.inner, h'.scion.common.value.payloadLen, hop.Bytes(), rest);
      hide StackReceived;
    }
  }

  /** The fields that decide how the sink reads what follows the INT-MD header. */
  lemma InsertedFields(h: Headers, instr: u16, domain: u16, hop: IntStack)
    requires PlainUdp(h)
    ensures var h' := Inserted(h, instr, domain, hop);
      && HasStack(h'.inner) == (Words(hop) != 0)
      && h'.inner.shim.Some? && StackBits(h'.inner.shim.value.length) == 32 * Words(hop)
      && h'.scion.common.Some?
      && h'.scion.common.value.payloadLen == Mod16(h.scion.common.value.payloadLen + 16 + 4 * Words(hop))
      && h'.stack == hop.(pre := h.stack.pre) && h'.payload == h.payload
  {
    hide Mod16;
    hide Words;
    PlainUdpHasNoInt(h);
  }

  lemma ChecksumsKeepShape(h: Headers, rest: seq<byte>, csum: seq<byte> -> u16)
    ensures var g := WithChecksums(h, rest, csum);
      && g == h.(outer := g.outer) && (OuterShape(h.outer) ==> OuterShape(g.outer))
      && (ToScion(h.outer) <==> ToScion(g.outer))
  {
  }

  lemma InsertedShape(h: Headers, instr: u16, domain: u16, hop: IntStack)
    requires PlainUdp(h) && hop.pre == None
    ensures var g := Inserted(h, instr, domain, hop);
      && OuterShape(g.outer) && ToScion(g.outer) && g.cpu == None && ScionShape(g.scion)
      && PathShape(g.scion.common.value.pathType, g.path)
      && InnerShape(g.scion.common.value.nextHdr, g.inner)
      && g.stack == hop && g.payload == None
  {
    hide PathShape;
    PlainUdpHasNoInt(h);
  }

  /** The sink's parser accepts the source's packet exactly when it can split it, and then sees the headers the
      source wrote, the hop as an opaque stack, and the original payload. A target that continues after a parser error
      sees the same headers with the payload unparsed. */
  lemma SinkParsesSource(tg: Target, h: Headers, rest: seq<byte>, instr: u16, domain: u16, hop: IntStack,
                         csum: seq<byte> -> u16)
    requires PlainUdp(h) && hop.pre == None
    ensures var h' := Inserted(h, instr, domain, hop);
      var g := WithChecksums(h', rest, csum);
      var len := h.scion.common.value.payloadLen;
      Received(tg, Emit(h', rest, csum)) ==
      if !Usable(tg, len, hop, rest) then None
      else Some(Accepted(AtSink(g, hop, len, rest), rest[PayloadSize(len, hop, rest)..]))
  {
    hide StackReceived;
    hide Received;
    hide Usable;
    hide Splittable;
    hide PathShape;
    hide WithChecksums;
    hide Inserted;
    hide Headers.Deparse;
    hide Outer.Bytes;
    hide Scion.Bytes;
    hide Path.Bytes;
    hide Inner.Bytes;
    hide IntStack.Bytes;
    var h' := Inserted(h, instr, domain, hop);
    var g := WithChecksums(h', rest, csum);
    InsertedShape(h, instr, domain, hop);
    ChecksumsKeepShape(h', rest, csum);
    DeparseGroups(g, rest);
    assert hop.Bytes() + Raw(g.payload) + rest == hop.Bytes() + rest;
    ParseUpToStack(tg, g, hop.Bytes() + rest);
    SinkParsesStack(tg, h, instr, domain, hop, rest);
  }

  //////////////////////////////////////////////////////////////////////
  // Sink undoes source
  //////////////////////////////////////////////////////////////////////

  lemma Mod16Undo(v: u16, d: int)
    ensures Mod16(Mod16(v + d) - d) == v
  {
    var a := v + d;
    assert a == a / 0x1_0000 * 0x1_0000 + a % 0x1_0000;
    assert a % 0x1_0000 - d == v - a / 0x1_0000 * 0x1_0000;
    ModShift(v, -(a / 0x1_0000));
  }

  lemma ModShift(v: u16, k: int)
    ensures (v + k * 0x1_0000) % 0x1_0000 == v
  {
  }

  /** The packet without INT as the sink has it before checksums: the two outer checksums are the source's. */
  function Rechecked(h: Headers, ipChecksum: u16, udpChecksum: u16): Headers
    requires h.outer.ipv4.Some? && h.outer.udp.Some?
  {
    h.(outer := h.outer.(ipv4 := Some(h.outer.ipv4.value.(hdrChecksum := ipChecksum)),
                         udp := Some(h.outer.udp.value.(checksum := udpChecksum))))
  }

  lemma DeletedAtSink(h: Headers, rest: seq<byte>, instr: u16, domain: u16, hop: IntStack, csum: seq<byte> -> u16)
    requires PlainUdp(h) && hop.pre == None
    ensures var h' := Inserted(h, instr, domain, hop);
      var g := WithChecksums(h', rest, csum);
      var len := h.scion.common.value.payloadLen;
      var d := Deleted(AtSink(g, hop, len, rest));
      && d == h.(outer := d.outer, payload := AtSink(g, hop, len, rest).payload)
      && d.outer == h.outer.(ipv4 := Some(h.outer.ipv4.value.(hdrChecksum := g.outer.ipv4.value.hdrChecksum)),
                             udp := Some(h.outer.udp.value.(checksum := g.outer.udp.value.checksum)))
  {
    hide Listed;
    hide UdpList;
    hide Ipv4List;
    hide Deleted;
    hide Inserted;
    hide IntStack.Bytes;
    hide Splittable;
    hide Words;
    PlainUdpHasNoInt(h);
    hide Shape;
    InsertedHas(h, instr, domain, hop);
    var h' := Inserted(h, instr, domain, hop);
    var g := WithChecksums(h', rest, csum);
    var a := AtSink(g, hop, h.scion.common.value.payloadLen, rest);
    DeletedInserted(h, instr, domain, hop, g.outer.ipv4.value.hdrChecksum, g.outer.udp.value.checksum,
                    a.stack, a.payload);
  }

  lemma InsertedHas(h: Headers, instr: u16, domain: u16, hop: IntStack)
    requires h.inner.udp.Some? && h.outer.ipv4.Some? && h.outer.udp.Some?
    ensures var h' := Inserted(h, instr, domain, hop);
      h'.inner.udp.Some? && h'.inner.shim.Some? && h'.outer.ipv4.Some? && h'.outer.udp.Some?
  {
    hide Words;
    hide Mod16;
  }

  /** Deletion undoes insertion, whatever happened to checksums, stack and payload in between. */
  lemma DeletedInserted(h: Headers, instr: u16, domain: u16, hop: IntStack, ipChecksum: u16, udpChecksum: u16,
                        stack: IntStack, payload: Option<seq<byte>>)
    requires h.inner.udp.Some? && h.inner.shim == None && h.inner.md == None
    requires h.outer.ipv4.Some? && h.outer.udp.Some? && h.scion.common.Some?
    ensures var h' := Inserted(h, instr, domain, hop);
      && h'.inner.udp.Some? && h'.inner.shim.Some? && h'.outer.ipv4.Some? && h'.outer.udp.Some?
      && Deleted(Rechecked(h', ipChecksum, udpChecksum).(stack := stack, payload := payload))
         == Rechecked(h, ipChecksum, udpChecksum).(stack := stack.(pre := None), payload := payload)
  {
    hide Words;
    hide Mod16;
    var k := 16 + 4 * Words(hop);
    Mod16Undo(h.outer.ipv4.value.totalLen, k);
    Mod16Undo(h.outer.udp.value.len, k);
    Mod16Undo(h.scion.common.value.payloadLen, k);
    Mod16Undo(h.inner.udp.value.len, k);
    ShimLength(h, instr, domain, hop);
  }

  lemma ShimLength(h: Headers, instr: u16, domain: u16, hop: IntStack)
    requires h.inner.udp.Some?
    ensures Inserted(h, instr, domain, hop).inner.shim.Some?
    ensures 4 + 4 * Inserted(h, instr, domain, hop).inner.shim.value.length == 16 + 4 * Words(hop)
  {
    hide Words;
    hide Mod16;
  }

  /** Moving bytes between the payload header and the unparsed rest is invisible on the wire. */
  lemma EmitIgnoresSplit(h: Headers, g: Headers, rest: seq<byte>, restG: seq<byte>, csum: seq<byte> -> u16)
    requires g == h.(payload := g.payload) && g.FromScion() + restG == h.FromScion() + rest
    ensures Emit(g, restG, csum) == Emit(h, rest, csum)
  {
    hide Listed;
    hide Headers.FromScion;
    hide Outer.Bytes;
    var a, b := WithChecksums(g, restG, csum), WithChecksums(h, rest, csum);
    assert a.outer == b.outer;
    FromScionUnchanged(h, rest, csum);
    FromScionUnchanged(g, restG, csum);
    var front := a.outer.Bytes() + (if a.cpu.Some? then a.cpu.value.Bytes() else []);
    assert Emit(g, restG, csum) == front + (g.FromScion() + restG);
    assert Emit(h, rest, csum) == front + (h.FromScion() + rest);
  }

  lemma FromScionUnchanged(h: Headers, rest: seq<byte>, csum: seq<byte> -> u16)
    ensures WithChecksums(h, rest, csum).FromScion() == h.FromScion()
  {
  }

  /** The UDP checksum the source writes. */
  function SourceUdpChecksum(h: Headers, rest: seq<byte>, instr: u16, domain: u16, hop: IntStack,
                             csum: seq<byte> -> u16): u16
    requires PlainUdp(h)
  {
    PlainUdpHasNoInt(h);
    var h' := Inserted(h, instr, domain, hop);
    csum(UdpList(h'.outer.ipv4.value, h'.outer.udp.value, h', rest))
  }

  /** The UDP checksum of the packet without INT. */
  function PlainUdpChecksum(h: Headers, rest: seq<byte>, csum: seq<byte> -> u16): u16
    requires PlainUdp(h)
  {
    PlainUdpHasNoInt(h);
    csum(UdpList(h.outer.ipv4.value, h.outer.udp.value, h, rest))
  }

  /** The outer UDP checksum survives the detour unless the source's comes out zero, which the sink then
      takes for "no checksum". */
  predicate ChecksumSurvives(h: Headers, rest: seq<byte>, instr: u16, domain: u16, hop: IntStack,
                             csum: seq<byte> -> u16)
    requires PlainUdp(h)
  {
    PlainUdpHasNoInt(h);
    || h.outer.udp.value.checksum == 0
    || SourceUdpChecksum(h, rest, instr, domain, hop, csum) != 0
    || PlainUdpChecksum(h, rest, csum) == 0
  }

  /** Recomputation forgets all of the old checksums but whether the UDP checksum was zero. */
  lemma RecheckedEmit(h: Headers, rest: seq<byte>, ipChecksum: u16, udpChecksum: u16, csum: seq<byte> -> u16)
    requires PlainUdp(h)
    requires h.outer.udp.Some? && h.outer.udp.value.checksum == 0 ==> udpChecksum == 0
    ensures h.outer.ipv4.Some? && h.outer.udp.Some?
    ensures Emit(Rechecked(h, ipChecksum, udpChecksum), rest, csum) == Emit(h, rest, csum) <==>
            h.outer.udp.value.checksum == 0 || udpChecksum != 0 || PlainUdpChecksum(h, rest, csum) == 0
  {
    hide Listed;
    PlainUdpHasNoInt(h);
    var g := Rechecked(h, ipChecksum, udpChecksum);
    var a, b := WithChecksums(g, rest, csum), WithChecksums(h, rest, csum);
    assert UdpList(g.outer.ipv4.value, g.outer.udp.value, g, rest)
        == UdpList(h.outer.ipv4.value, h.outer.udp.value, h, rest);
    var ck := PlainUdpChecksum(h, rest, csum);
    assert a == b.(outer := b.outer.(udp := Some(h.outer.udp.value.(checksum := if udpChecksum != 0 then ck else 0))));
    assert b.outer.udp == Some(h.outer.udp.value.(checksum := if h.outer.udp.value.checksum != 0 then ck else 0));
    assert Shape(a) && Shape(b);
    if a.Deparse() + rest == b.Deparse() + rest {
      Unambiguous(a, rest, b, rest);
    }
  }

  lemma SinkOutput(h: Headers, rest: seq<byte>, instr: u16, domain: u16, hop: IntStack, csum: seq<byte> -> u16)
    requires PlainUdp(h) && hop.pre == None
    ensures var g := WithChecksums(Inserted(h, instr, domain, hop), rest, csum);
      var len := h.scion.common.value.payloadLen;
      Emit(Deleted(AtSink(g, hop, len, rest)), rest[PayloadSize(len, hop, rest)..], csum) == Emit(h, rest, csum)
      <==> ChecksumSurvives(h, rest, instr, domain, hop, csum)
  {
    hide Listed;
    PlainUdpHasNoInt(h);
    var g := WithChecksums(Inserted(h, instr, domain, hop), rest, csum);
    var len := h.scion.common.value.payloadLen;
    DeletedAtSink(h, rest, instr, domain, hop, csum);
    var ipCk, udpCk := g.outer.ipv4.value.hdrChecksum, g.outer.udp.value.checksum;
    assert udpCk == if h.outer.udp.value.checksum != 0 then SourceUdpChecksum(h, rest, instr, domain, hop, csum) else 0;
    hide WithChecksums;
    hide Inserted;
    hide Deleted;
    hide Emit;
    var d := Deleted(AtSink(g, hop, len, rest));
    var r := Rechecked(h, ipCk, udpCk);
    assert d == r.(payload := d.payload);
    PayloadSplit(r, d, hop, len, rest);
    EmitIgnoresSplit(r, d, rest, rest[PayloadSize(len, hop, rest)..], csum);
    RecheckedEmit(h, rest, ipCk, udpCk, csum);
  }

  lemma PayloadSplit(r: Headers, d: Headers, hop: IntStack, len: u16, rest: seq<byte>)
    requires r.stack == NO_STACK && r.payload == None
    requires d == r.(payload := d.payload)
    requires d.payload == if Words(hop) == 0 || !Splittable(len, hop, rest) then None
                          else Some(rest[..PayloadSize(len, hop, rest)])
    ensures d.FromScion() + rest[PayloadSize(len, hop, rest)..] == r.FromScion() + rest
  {
    hide Splittable;
    var m := PayloadSize(len, hop, rest);
    assert Raw(d.payload) == rest[..m] && rest == rest[..m] + rest[m..];
    assert d.FromScion() == d.ScionToMd() + d.stack.Bytes() + rest[..m];
    assert r.FromScion() == d.ScionToMd() + d.stack.Bytes() + [];
  }

  /** Source then sink sends out what one switch without INT sends out, if and only if the UDP checksum survives and,
      for a target that discards packets on a parser error, the sink can split the packet. */
  lemma SinkUndoesSource(tg: Target, x: seq<byte>, source: Tables, sink: Tables, stdA: Std, stdB: Std,
                         csum: seq<byte> -> u16, instr: u16, domain: u16)
    requires Received(tg, x).Some? && PlainUdp(Received(tg, x).value.hdr)
    requires Lookup(Received(tg, x).value.hdr, source) == Some(InsertInt(instr, domain))
    requires Lookup(Received(tg, x).value.hdr, sink) == Some(CloneInt)
    ensures var p := Received(tg, x).value;
      var hop := Hop(instr, domain, source, stdA);
      var y := Output(tg, x, source, stdA, csum);
      && y.Some?
      && (Output(tg, y.value, sink, stdB, csum) == Some(Emit(p.hdr, p.rest, csum)) <==>
          Usable(tg, p.hdr.scion.common.value.payloadLen, hop, p.rest)
          && ChecksumSurvives(p.hdr, p.rest, instr, domain, hop, csum))
  {
    hide Listed;
    var h, rest := Received(tg, x).value.hdr, Received(tg, x).value.rest;
    var hop := Hop(instr, domain, source, stdA);
    hide Received;
    hide Emit;
    hide WithChecksums;
    hide AtSink;
    hide Shape;
    hide Usable;
    SinkParsesSource(tg, h, rest, instr, domain, hop, csum);
    var len := h.scion.common.value.payloadLen;
    if Usable(tg, len, hop, rest) {
      var g := AtSink(WithChecksums(Inserted(h, instr, domain, hop), rest, csum), hop, len, rest);
      SinkForwards(h, instr, domain, hop, rest, csum, sink, stdB);
      hide Forwarded;
      hide Deleted;
      SinkOutput(h, rest, instr, domain, hop, csum);
    }
  }

  lemma SinkForwards(h: Headers, instr: u16, domain: u16, hop: IntStack, rest: seq<byte>, csum: seq<byte> -> u16,
                     t: Tables, std: Std)
    requires PlainUdp(h) && Lookup(h, t) == Some(CloneInt)
    ensures var g := AtSink(WithChecksums(Inserted(h, instr, domain, hop), rest, csum), hop,
                         h.scion.common.value.payloadLen, rest);
      g.inner.udp.Some? && g.inner.shim.Some? && Forwarded(g, t, std) == Deleted(g)
  {
    LookupAtSink(h, instr, domain, hop, rest, csum, t);
    hide Shape;
    hide WithChecksums;
    hide AtSink;
    hide Lookup;
    hide Deleted;
    AtSinkHasUdp(h, instr, domain, hop, rest, csum);
  }

  lemma AtSinkHasUdp(h: Headers, instr: u16, domain: u16, hop: IntStack, rest: seq<byte>, csum: seq<byte> -> u16)
    requires PlainUdp(h)
    ensures AtSink(WithChecksums(Inserted(h, instr, domain, hop), rest, csum), hop,
                   h.scion.common.value.payloadLen, rest).inner.udp.Some?
  {
  }

  /** The sink's table sees the same destination. */
  lemma LookupAtSink(h: Headers, instr: u16, domain: u16, hop: IntStack, rest: seq<byte>, csum: seq<byte> -> u16,
                     t: Tables)
    requires PlainUdp(h)
    ensures var g := AtSink(WithChecksums(Inserted(h, instr, domain, hop), rest, csum), hop,
                         h.scion.common.value.payloadLen, rest);
      Lookup(g, t) == Lookup(h, t) && g.inner.shim.Some?
  {
    PlainUdpHasNoInt(h);
  }

  //////////////////////////////////////////////////////////////////////
  // Checksums
  //////////////////////////////////////////////////////////////////////

  /** What MyVerifyChecksum checks. */
  predicate Verified(h: Headers, rest: seq<byte>, csum: seq<byte> -> u16) {
    h.outer.ipv4.Some? ==>
      && h.outer.ipv4.value.hdrChecksum == csum(Ipv4List(h.outer.ipv4.value))
      && (h.outer.udp.Some? && h.outer.udp.value.checksum != 0 ==>
            h.outer.udp.value.checksum == csum(UdpList(h.outer.ipv4.value, h.outer.udp.value, h, rest)))
  }

  /** A verified packet passes a switch that takes no INT action unchanged, byte for byte. */
  lemma VerifiedPassesUnchanged(tg: Target, x: seq<byte>, csum: seq<byte> -> u16)
    requires Received(tg, x).Some? && Verified(Received(tg, x).value.hdr, Received(tg, x).value.rest, csum)
    ensures Emit(Received(tg, x).value.hdr, Received(tg, x).value.rest, csum) == x
  {
    hide Received;
    ReceivedThenDeparse(tg, x);
    var h := Received(tg, x).value.hdr;
    assert WithChecksums(h, Received(tg, x).value.rest, csum) == h;
  }

  /** Both UDP checksum lists name the same bytes: the source's, over separate stack headers and an unparsed payload,
      and the sink's, over one varbit stack and an extracted payload. So the sink's verification succeeds. */
  lemma ChecksumAgreement(tg: Target, h: Headers, rest: seq<byte>, instr: u16, domain: u16, hop: IntStack,
                          csum: seq<byte> -> u16)
    requires PlainUdp(h) && hop.pre == None && Usable(tg, h.scion.common.value.payloadLen, hop, rest)
    ensures var h' := Inserted(h, instr, domain, hop);
      var q := Received(tg, Emit(h', rest, csum));
      && q.Some? && h'.outer.ipv4.Some? && h'.outer.udp.Some?
      && q.value.hdr.outer.ipv4.Some? && q.value.hdr.outer.udp.Some?
      && UdpList(q.value.hdr.outer.ipv4.value, q.value.hdr.outer.udp.value, q.value.hdr, q.value.rest)
         == UdpList(h'.outer.ipv4.value, h'.outer.udp.value, h', rest)
      && Verified(q.value.hdr, q.value.rest, csum)
  {
    hide Listed;
    PlainUdpHasNoInt(h);
    SinkParsesSource(tg, h, rest, instr, domain, hop, csum);
    InsertedHas(h, instr, domain, hop);
    InsertedFields(h, instr, domain, hop);
    hide Inserted;
    hide Words;
    hide Splittable;
    var h' := Inserted(h, instr, domain, hop);
    var g := WithChecksums(h', rest, csum);
    FromScionUnchanged(h', rest, csum);
    hide Received;
    hide Shape;
    hide Headers.FromScion;
    AtSinkSameBytes(g, hop, h.scion.common.value.payloadLen, rest);
  }

  /** A verified packet comes back from source and sink byte for byte, unless the source's UDP checksum came out zero or
      the target discards packets on a parser error and the sink cannot split this one. */
  lemma RoundTrip(tg: Target, x: seq<byte>, source: Tables, sink: Tables, stdA: Std, stdB: Std, csum: seq<byte> -> u16,
                  instr: u16, domain: u16)
    requires Received(tg, x).Some? && PlainUdp(Received(tg, x).value.hdr)
    requires Verified(Received(tg, x).value.hdr, Received(tg, x).value.rest, csum)
    requires Lookup(Received(tg, x).value.hdr, source) == Some(InsertInt(instr, domain))
    requires Lookup(Received(tg, x).value.hdr, sink) == Some(CloneInt)
    ensures var p := Received(tg, x).value;
      var hop := Hop(instr, domain, source, stdA);
      Output(tg, x, source, stdA, csum).Some?
      && (Output(tg, Output(tg, x, source, stdA, csum).value, sink, stdB, csum) == Some(x) <==>
          Usable(tg, p.hdr.scion.common.value.payloadLen, hop, p.rest)
          && (p.hdr.outer.udp.value.checksum == 0 || SourceUdpChecksum(p.hdr, p.rest, instr, domain, hop, csum) != 0))
  {
    var h := Received(tg, x).value.hdr;
    PlainUdpHasNoInt(h);
    assert h.outer.udp.value.checksum != 0 ==> PlainUdpChecksum(h, Received(tg, x).value.rest, csum) != 0;
    hide Received;
    hide Output;
    hide Lookup;
    hide Emit;
    hide Usable;
    SinkUndoesSource(tg, x, source, sink, stdA, stdB, csum, instr, domain);
    VerifiedPassesUnchanged(tg, x, csum);
  }

  //////////////////////////////////////////////////////////////////////
  // The sink strips INT and reports it
  //////////////////////////////////////////////////////////////////////

  /** The CPU copy: the int_cpu header, the SCION through INT-MD headers, the stack, and the unparsed rest. */
  lemma CpuCopyBytes(tg: Target, x: seq<byte>, t: Tables, csum: seq<byte> -> u16)
    requires Received(tg, x).Some?
    ensures Extracted(Received(tg, x).value.hdr)
    ensures ToCpu(tg, x, t, csum) ==
            var p := Received(tg, x).value;
            if Lookup(p.hdr, t) == Some(CloneInt) && p.hdr.inner.shim.Some? then
              Some(IntCpu(INT_IDENTIFIER, CpuHdrLen(p.hdr)).Bytes() + p.hdr.ScionToMd() + p.hdr.stack.Bytes() + p.rest)
            else None
  {
    hide Received;
    hide Extracted;
    hide CopySent;
    hide CpuHdrLen;
    hide Headers.ScionToMd;
    hide IntStack.Bytes;
    hide IntCpu.Bytes;
    hide Lookup;
    ReceivedThenDeparse(tg, x);
    CopyBytes(Received(tg, x).value.hdr, Received(tg, x).value.rest, t, csum);
  }

  lemma CopyBytes(h: Headers, rest: seq<byte>, t: Tables, csum: seq<byte> -> u16)
    requires Extracted(h)
    ensures CopySent(h, rest, t, csum) ==
            if Lookup(h, t) == Some(CloneInt) && h.inner.shim.Some? then
              Some(IntCpu(INT_IDENTIFIER, CpuHdrLen(h)).Bytes() + h.ScionToMd() + h.stack.Bytes() + rest)
            else None
  {
    hide Extracted;
    hide Headers.ScionToMd;
    hide IntStack.Bytes;
    hide IntCpu.Bytes;
    hide Lookup;
    hide Emit;
    hide CpuHdrLen;
    hide CpuCopy;
    if h.inner.shim.Some? {
      CpuCopyDeparse(h, CpuHdrLen(h), rest, csum);
    }
  }

  lemma CpuCopyDeparse(h: Headers, n: u64, rest: seq<byte>, csum: seq<byte> -> u16)
    ensures Emit(CpuCopy(h, n), rest, csum)
         == IntCpu(INT_IDENTIFIER, n).Bytes() + h.ScionToMd() + h.stack.Bytes() + rest
  {
    hide Scion.Bytes;
    hide Path.Bytes;
    hide Inner.Bytes;
    hide IntStack.Bytes;
    hide IntCpu.Bytes;
    var g := CpuCopy(h, n);
    var a := g.cpu.value.Bytes();
    assert g.outer.Bytes() == [];
    assert g.FromScion() == h.ScionToMd() + h.stack.Bytes() + [];
    assert g.Deparse() == a + (h.ScionToMd() + h.stack.Bytes());
  }

  /** Any packet for the sink's own AS that carries a shim, whoever wrote it and wherever its parsing stopped, goes on
      without INT headers, with the port the shim saved, the payload intact and no int_cpu header; one CPU copy exists.
      A packet without a shim is forwarded as it came and leaves no CPU copy. */
  lemma SinkStripsInt(tg: Target, x: seq<byte>, t: Tables, std: Std, csum: seq<byte> -> u16)
    requires Received(tg, x).Some? && Lookup(Received(tg, x).value.hdr, t) == Some(CloneInt)
    ensures var p := Received(tg, x).value;
      var f := Forwarded(p.hdr, t, std);
      && (p.hdr.inner.shim.None? ==> f == p.hdr && ToCpu(tg, x, t, csum) == None)
      && (p.hdr.inner.shim.Some? ==>
            && p.hdr.inner.udp.Some?
            && f.inner.udp.Some? && f.inner.udp.value.dstPort == p.hdr.inner.shim.value.udpPort
            && f.inner.shim == None && f.inner.md == None && f.stack == NO_STACK && f.cpu == None
            && f.path == p.hdr.path && f.payload == p.hdr.payload
            && ToCpu(tg, x, t, csum).Some?)
  {
    hide Received;
    hide Extracted;
    hide ToCpu;
    hide Deleted;
    CpuCopyBytes(tg, x, t, csum);
    var h := Received(tg, x).value.hdr;
    if h.inner.shim.Some? {
      DeletedHeaders(h);
    }
  }

  lemma DeletedHeaders(h: Headers)
    requires Extracted(h) && h.inner.shim.Some?
    ensures h.inner.udp.Some?
    ensures var f := Deleted(h);
      && f.inner.udp.Some? && f.inner.udp.value.dstPort == h.inner.shim.value.udpPort
      && f.inner.shim == None && f.inner.md == None && f.stack == NO_STACK && f.cpu == None
      && f.path == h.path && f.payload == h.payload
  {
    hide PathShape;
    StackSize(h);
  }

  /** On the wire as well, but for one saved port: the next parser accepts the packet and finds no INT header in it if
      and only if the saved port is not the INT port itself. Then it finds exactly the stripped headers. */
  lemma StrippedOnTheWire(tg: Target, x: seq<byte>, t: Tables, std: Std, csum: seq<byte> -> u16)
    requires Received(tg, x).Some? && Lookup(Received(tg, x).value.hdr, t) == Some(CloneInt)
    requires Received(tg, x).value.hdr.inner.shim.Some?
    ensures var p := Received(tg, x).value;
      var f := WithChecksums(Forwarded(p.hdr, t, std), p.rest, csum).(payload := None);
      var y := Output(tg, x, t, std, csum);
      && y.Some?
      && (Parse(y.value).Some? && Parse(y.value).value.hdr.inner.shim == None
          <==> p.hdr.inner.shim.value.udpPort != INT_UDP_PORT)
      && (p.hdr.inner.shim.value.udpPort != INT_UDP_PORT ==>
            Parse(y.value) == Some(Accepted(f, Raw(p.hdr.payload) + p.rest)))
  {
    ReceivedThenDeparse(tg, x);
    SinkStripsInt(tg, x, t, std, csum);
    var p := Received(tg, x).value;
    hide Received;
    var d := Forwarded(p.hdr, t, std);
    var f := WithChecksums(d, p.rest, csum);
    hide WithChecksums;
    DeletedShape(p.hdr);
    ChecksumsKeepShape(d, p.rest, csum);
    hide Forwarded;
    hide Extracted;
    hide Headers.Deparse;
    PayloadIsLast(f, p.rest);
    if p.hdr.inner.shim.value.udpPort != INT_UDP_PORT {
      DeparseThenParse(f.(payload := None), Raw(p.hdr.payload) + p.rest);
    } else {
      AnotherShim(f.(payload := None), Raw(p.hdr.payload) + p.rest);
    }
  }

  /** When a packet whose lengths are right leaves the sink, they are still right if and only if the shim claimed what
      the parser extracted: no more words for a shim alone; for one with an MD header this header and at most the 65
      words there is room for, and these bytes are there. Otherwise they are wrong by the difference. */
  lemma SinkKeepsLengths(tg: Target, x: seq<byte>, t: Tables, std: Std)
    requires Received(tg, x).Some? && Lookup(Received(tg, x).value.hdr, t) == Some(CloneInt)
    requires Received(tg, x).value.hdr.inner.shim.Some?
    requires LengthsDescribe(Received(tg, x).value.hdr, Received(tg, x).value.rest)
    ensures var p := Received(tg, x).value;
      var f := Forwarded(p.hdr, t, std);
      var len := p.hdr.inner.shim.value.length;
      && (LengthsDescribe(f, p.rest)
          <==> if p.hdr.inner.md.None? then len == 0
               else 3 <= len <= 68 && 4 * (len - 3) <= |p.hdr.stack.Bytes()| + |Raw(p.hdr.payload)| + |p.rest|)
      && LengthsShort(f, p.rest, 4 + 4 * len - IntSize(p.hdr))
  {
    hide Received;
    hide Extracted;
    hide LengthsDescribe;
    hide LengthsShort;
    hide Deleted;
    hide Raw;
    ReceivedThenDeparse(tg, x);
    var p := Received(tg, x).value;
    DeleteKeepsLengths(p.hdr, p.rest);
    if p.hdr.inner.md.Some? {
      StackAccounted(tg, x);
      hide IntSize;
    } else {
      StackSize(p.hdr);
    }
  }

  /** What a target that continues sends out when it could not extract the stack: only shim and MD header are taken out,
      the words of the stack stay in front of the payload. */
  lemma StackStaysBehind(tg: Target, x: seq<byte>, t: Tables, std: Std, csum: seq<byte> -> u16)
    requires Received(tg, x).Some? && Lookup(Received(tg, x).value.hdr, t) == Some(CloneInt)
    requires Received(tg, x).value.hdr.inner.md.Some? && Received(tg, x).value.hdr.stack.pre.None?
    ensures var p := Received(tg, x).value;
      var f := WithChecksums(Forwarded(p.hdr, t, std), p.rest, csum);
      && p.hdr.inner.udp.Some? && p.hdr.inner.shim.Some? && f.inner.udp.Some?
      && x == FromOuter(p.hdr, p.hdr.inner.udp.value.Bytes() + p.hdr.inner.shim.value.Bytes()
                               + p.hdr.inner.md.value.Bytes(), p.rest)
      && Output(tg, x, t, std, csum) == Some(FromOuter(f, f.inner.udp.value.Bytes(), p.rest))
  {
    ReceivedThenDeparse(tg, x);
    hide Received;
    var p := Received(tg, x).value;
    MdHasShim(p.hdr);
    StackSize(p.hdr);
    DeletedHeaders(p.hdr);
    hide Extracted;
    hide Deleted;
    hide Headers.Deparse;
    hide Inner.Bytes;
    hide FromOuter;
    var d := Forwarded(p.hdr, t, std);
    ChecksumsKeepShape(d, p.rest, csum);
    hide WithChecksums;
    InnerParts(p.hdr.inner);
    InnerParts(WithChecksums(d, p.rest, csum).inner);
    NoStackOnWire(p.hdr, p.rest);
    NoStackOnWire(WithChecksums(d, p.rest, csum), p.rest);
  }

  /** Outer headers, SCION and path, then the given bytes. */
  function FromOuter(h: Headers, inner: seq<byte>, rest: seq<byte>): seq<byte> {
    h.outer.Bytes() + (h.scion.Bytes() + (h.path.Bytes() + (inner + rest)))
  }

  lemma InnerParts(i: Inner)
    requires i.udp.Some?
    ensures i.Bytes() == i.udp.value.Bytes() + (if i.shim.Some? then i.shim.value.Bytes() else [])
                         + (if i.md.Some? then i.md.value.Bytes() else [])
    ensures i.shim.None? && i.md.None? ==> i.Bytes() == i.udp.value.Bytes()
  {
  }

  lemma NoStackOnWire(h: Headers, rest: seq<byte>)
    requires h.cpu == None && h.stack == NO_STACK && h.payload == None
    ensures h.Deparse() + rest == FromOuter(h, h.inner.Bytes(), rest)
  {
    hide Headers.Deparse;
    hide Outer.Bytes;
    hide Scion.Bytes;
    hide Path.Bytes;
    hide Inner.Bytes;
    DeparseGroups(h, rest);
    NothingAfterInner(rest);
  }

  /** With the INT port as destination, whatever follows the UDP header is read as a shim. */
  lemma AnotherShim(f: Headers, rest: seq<byte>)
    requires OuterShape(f.outer) && ToScion(f.outer) && f.cpu == None && ScionShape(f.scion)
    requires PathShape(f.scion.common.value.pathType, f.path) && f.scion.common.value.nextHdr == NEXT_UDP_SCION
    requires f.inner.udp.Some? && f.inner.udp.value.dstPort == INT_UDP_PORT && f.inner.shim == None
    requires f.inner.md == None && f.stack == NO_STACK && f.payload == None
    ensures var q := Parse(f.Deparse() + rest);
      q.Some? ==> q.value.hdr.inner.shim.Some?
  {
    hide Received;
    hide OuterShape;
    hide PathShape;
    hide ScionShape;
    hide Headers.Deparse;
    hide Outer.Bytes;
    hide Scion.Bytes;
    hide Path.Bytes;
    DeparseGroups(f, rest);
    EmptyStack();
    var tail := f.inner.Bytes() + (f.stack.Bytes() + Raw(f.payload) + rest);
    ParseUpToInner(Discards, f, tail);
    PortAlone(f.inner.udp.value, f.stack.Bytes() + Raw(f.payload) + rest);
  }

  lemma PortAlone(udp: Udp, rest: seq<byte>)
    requires udp.dstPort == INT_UDP_PORT
    ensures var r := ParseInner(NEXT_UDP_SCION, Inner(Some(udp), None, None).Bytes() + rest);
      r.Some? ==> r.value.0.shim.Some?
  {
    hide Udp.Bytes;
    hide ReadUdp;
    hide ReadIntShim;
    hide ReadIntMd;
    var x := Inner(Some(udp), None, None).Bytes() + rest;
    assert x[..8] == udp.Bytes();
    ReadUdpBytes(udp);
  }

  lemma PayloadIsLast(f: Headers, rest: seq<byte>)
    ensures f.Deparse() + rest == f.(payload := None).Deparse() + (Raw(f.payload) + rest)
  {
    hide Outer.Bytes;
    hide IntCpu.Bytes;
    hide Scion.Bytes;
    hide Path.Bytes;
    hide Inner.Bytes;
    hide IntStack.Bytes;
    var a := f.outer.Bytes() + (if f.cpu.Some? then f.cpu.value.Bytes() else []);
    var b := f.ScionToMd() + f.stack.Bytes();
    assert f.Deparse() == a + (b + Raw(f.payload));
    assert f.(payload := None).Deparse() == a + (b + []);
  }

  /** The stripped headers have the grammar's shape but for the port. */
  lemma DeletedShape(h: Headers)
    requires Extracted(h) && h.inner.shim.Some?
    ensures var d := Deleted(h).(payload := None);
      && OuterShape(d.outer) && ToScion(d.outer) && d.cpu == None && ScionShape(d.scion)
      && PathShape(d.scion.common.value.pathType, d.path) && d.scion.common.value.nextHdr == NEXT_UDP_SCION
      && d.inner.udp.Some? && d.inner.udp.value.dstPort == h.inner.shim.value.udpPort
      && d.inner.shim == None && d.inner.md == None && d.stack == NO_STACK
      && (h.inner.shim.value.udpPort != INT_UDP_PORT ==> Shape(d))
  {
    hide PathShape;
    StackSize(h);
  }
}
