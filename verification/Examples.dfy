/** Concrete packets on which INT does not round-trip. */
module Examples {
  import opened Bits
  import opened Headers
  import opened Parser
  import opened IntSwitch
  import opened SourceSink
  import opened Decoder
  import opened Checksum
  import EndToEnd

  function Zeros(n: nat): (b: seq<byte>)
    ensures |b| == n
  {
    seq(n, i => 0)
  }

  const HOST := Host(Some(Zeros(4)), None, None, None)

  /** A well-formed SCION/UDP packet on a one-hop path, with an n-byte UDP payload still to come. */
  function Example(n: nat, checksum: u16): Headers
    requires n <= 65431
  {
    Headers(Outer(Some(Ethernet(1, 2, ETHERTYPE_IPV4)),
                  Some(Ipv4(0x45, 0, 104 + n, 0, 0, 64, PROTO_UDP, 0, 1, 2)),
                  Some(Udp(1, SCION_PORT, 84 + n, checksum))),
            None,
            Scion(Some(ScionCommon(0, 0, 1, NEXT_UDP_SCION, 17, 8 + n, PATH_ONEHOP, 0, 0, 0, 0, 0)),
                  Some(AddrCommon(1, 0xff00, 2, 0xff01)), HOST, HOST),
            Path(None, Some(Zeros(8)), None, None, Some(Zeros(24))),
            Inner(Some(Udp(1, 80, 8 + n, 0)), None, None), NO_STACK, None)
  }

  /** A source that writes its node id for that destination, and the destination's own sink. */
  const SOURCE := Tables(map[(1, 0xff00) := InsertInt(0x8000, 0)], map[1 := 7], map[1 := 0xff01], map[])
  const SINK := Tables(map[(1, 0xff00) := CloneInt], map[1 := 8], map[1 := 0xff00], map[])

  lemma ExampleIsWellFormed(tg: Target, rest: seq<byte>, checksum: u16)
    requires |rest| <= 65431
    ensures PlainUdp(Example(|rest|, checksum)) && LengthsDescribe(Example(|rest|, checksum), rest)
    ensures Received(tg, Example(|rest|, checksum).Deparse() + rest) == Some(Accepted(Example(|rest|, checksum), rest))
  {
    var h := Example(|rest|, checksum);
    assert Shape(h);
    hide Received;
    DeparseThenParse(h, rest);
    AcceptedIsReceived(tg, h.Deparse() + rest);
    Sizes(h);
    ScionLength(h.scion);
    InnerSize(h.inner);
    EmptyStack();
  }

  lemma NodeIdOnly(std: Std)
    ensures Hop(0x8000, 0, SOURCE, std) == NO_STACK.(nodeID := Some(7))
  {
    HighestBit();
    hide Bit;
  }

  lemma HighestBit()
    ensures Bit(0x8000, 15) && !Bit(0x8000, 8) && !Bit(0x8000, 10) && !Bit(0x8000, 11) && !Bit(0, 0)
  {
    assert Bit(0x8000, 15);
  }

  lemma ExampleKeys(n: nat, checksum: u16)
    requires n <= 65431
    ensures var h := Example(n, checksum);
      && Lookup(h, SOURCE) == Some(InsertInt(0x8000, 0)) && Lookup(h, SINK) == Some(CloneInt)
      && h.scion.common.Some? && h.scion.common.value.payloadLen == 8 + n
      && h.outer.udp.Some? && h.outer.udp.value.checksum == checksum
  {
  }

  /** The sink sends something out for the source's packet if it goes on with it; its parser accepts it if it can split
      it. */
  lemma SinkSends(tg: Target, h: Headers, rest: seq<byte>, stdA: Std, stdB: Std, csum: seq<byte> -> u16)
    requires PlainUdp(h) && Received(tg, h.Deparse() + rest) == Some(Accepted(h, rest))
    requires Lookup(h, SOURCE) == Some(InsertInt(0x8000, 0)) && h.scion.common.Some?
    ensures var y := Output(tg, h.Deparse() + rest, SOURCE, stdA, csum);
      var hop := Hop(0x8000, 0, SOURCE, stdA);
      && y.Some?
      && (Output(tg, y.value, SINK, stdB, csum).Some? <==> Usable(tg, h.scion.common.value.payloadLen, hop, rest))
      && (Parse(y.value).Some? <==> Splittable(h.scion.common.value.payloadLen, hop, rest))
  {
    var hop := Hop(0x8000, 0, SOURCE, stdA);
    assert hop.pre == None;
    hide Received;
    hide Emit;
    hide PlainUdp;
    hide Hop;
    hide Lookup;
    hide WithChecksums;
    hide Inserted;
    hide AtSink;
    hide Splittable;
    SinkParsesSource(tg, h, rest, 0x8000, 0, hop, csum);
    SinkParsesSource(Discards, h, rest, 0x8000, 0, hop, csum);
  }

  /** 8131 bytes of UDP payload are one too many: the source inserts INT, and the sink's parser then rejects the packet
      although all its lengths were right. A target that discards it sends nothing; one that continues with the headers
      extracted so far still restores the packet. */
  lemma RejectedAtTheSink(stdA: Std, stdB: Std, csum: seq<byte> -> u16)
    ensures var h := Example(8131, 0);
      var x := h.Deparse() + Zeros(8131);
      var d, c := Output(Discards, x, SOURCE, stdA, csum), Output(Continues, x, SOURCE, stdA, csum);
      && d.Some? && Parse(d.value) == None && Output(Discards, d.value, SINK, stdB, csum) == None
      && c == d && Output(Continues, c.value, SINK, stdB, csum) == Some(Emit(h, Zeros(8131), csum))
  {
    hide *;
    var h := Example(8131, 0);
    var x := h.Deparse() + Zeros(8131);
    ExampleIsWellFormed(Discards, Zeros(8131), 0);
    ExampleIsWellFormed(Continues, Zeros(8131), 0);
    ExampleKeys(8131, 0);
    TooLong(stdA);
    SinkSends(Discards, h, Zeros(8131), stdA, stdB, csum);
    SameOutput(x, SOURCE, stdA, csum);
    Restored(h, Zeros(8131), stdA, stdB, csum);
  }

  lemma TooLong(std: Std)
    ensures !Splittable(8139, Hop(0x8000, 0, SOURCE, std), Zeros(8131))
    ensures !Usable(Discards, 8139, Hop(0x8000, 0, SOURCE, std), Zeros(8131))
  {
    NodeIdOnly(std);
  }

  lemma SameOutput(x: seq<byte>, t: Tables, std: Std, csum: seq<byte> -> u16)
    requires Received(Discards, x) == Received(Continues, x)
    ensures Output(Discards, x, t, std, csum) == Output(Continues, x, t, std, csum)
  {
    hide Received;
    hide Emit;
    hide Forwarded;
  }

  /** Without a UDP checksum nothing is lost on a target that continues. */
  lemma Restored(h: Headers, rest: seq<byte>, stdA: Std, stdB: Std, csum: seq<byte> -> u16)
    requires PlainUdp(h) && Received(Continues, h.Deparse() + rest) == Some(Accepted(h, rest))
    requires Lookup(h, SOURCE) == Some(InsertInt(0x8000, 0)) && Lookup(h, SINK) == Some(CloneInt)
    requires h.outer.udp.Some? && h.outer.udp.value.checksum == 0
    ensures var c := Output(Continues, h.Deparse() + rest, SOURCE, stdA, csum);
      c.Some? && Output(Continues, c.value, SINK, stdB, csum) == Some(Emit(h, rest, csum))
  {
    hide Received;
    hide PlainUdp;
    hide Emit;
    hide Forwarded;
    hide Lookup;
    hide Hop;
    hide Splittable;
    hide Headers.Deparse;
    SinkUndoesSource(Continues, h.Deparse() + rest, SOURCE, SINK, stdA, stdB, csum, 0x8000, 0);
  }

  //////////////////////////////////////////////////////////////////////
  // A checksum that comes out zero
  //////////////////////////////////////////////////////////////////////

  const PAYLOAD: seq<byte> := [68, 210]
  /** The UDP checksum of the packet with that payload. */
  const CHECKSUM: u16 := 58782

  /** The sum over everything a UDP checksum list covers. */
  lemma SumOfList(h: Headers, rest: seq<byte>)
    requires h.outer.ipv4.Some? && h.outer.udp.Some? && |h.FromScion()| % 2 == 0
    ensures var ip, udp := h.outer.ipv4.value, h.outer.udp.value;
      WordSum(UdpList(ip, udp, h, rest)) ==
      WordSum(ip.Addrs()) + ip.protocol + udp.len + WordSum(udp.Front()) + WordSum(h.FromScion()) + WordSum(rest)
  {
    var ip, udp := h.outer.ipv4.value, h.outer.udp.value;
    assert WordSum([0, ip.protocol]) == ip.protocol;
    hide WordSum;
    hide Listed;
    hide Headers.FromScion;
    SumOf2(udp.len);
    SumOfFour(ip.Addrs(), [0, ip.protocol], BytesOf(2, udp.len), udp.Front());
    SumOfTwo(h.FromScion(), rest);
    SumOfTwo(ip.Addrs() + [0, ip.protocol] + BytesOf(2, udp.len) + udp.Front(), h.FromScion() + rest);
  }

  /** The headers of the example, with or without a shim, an MD header and a node id. */
  predicate LikeExample(h: Headers) {
    && h.outer.ipv4.Some? && h.outer.udp.Some?
    && h.scion.common.Some? && h.scion.addr.Some? && h.scion.dst == h.scion.src == HOST
    && h.path == Path(None, Some(Zeros(8)), None, None, Some(Zeros(24)))
    && h.inner.udp.Some? && h.inner.shim.Some? == h.inner.md.Some?
    && h.stack == NO_STACK.(nodeID := h.stack.nodeID) && h.payload == None
  }

  function InnerSum(i: Inner): nat
    requires i.udp.Some? && i.shim.Some? == i.md.Some?
  {
    i.udp.value.srcPort + i.udp.value.dstPort + i.udp.value.len + i.udp.value.checksum
    + (if i.shim.None? then 0 else
         i.shim.value.First() * 256 + i.shim.value.length + i.shim.value.udpPort
         + i.md.value.Flags() / 256 + i.md.value.Flags() % 256 * 256 + i.md.value.remainingHopCount
         + i.md.value.instructionBitmap + i.md.value.domainID + i.md.value.domainInstructions + i.md.value.domainFlags)
  }

  function StackSum(s: IntStack): nat {
    if s.nodeID.None? then 0 else s.nodeID.value / 0x1_0000 + s.nodeID.value % 0x1_0000
  }

  /** The sum over the checksum list, field by field. */
  function FieldSum(h: Headers, rest: seq<byte>): nat
    requires LikeExample(h)
  {
    var ip, udp, c, a := h.outer.ipv4.value, h.outer.udp.value, h.scion.common.value, h.scion.addr.value;
    ip.srcAddr / 0x1_0000 + ip.srcAddr % 0x1_0000 + ip.dstAddr / 0x1_0000 + ip.dstAddr % 0x1_0000
    + ip.protocol + udp.len + udp.srcPort + udp.dstPort + udp.len
    + c.FirstWord() / 0x1_0000 + c.FirstWord() % 0x1_0000 + c.nextHdr * 256 + c.hdrLen + c.payloadLen
    + c.pathType * 256 + c.Lengths() + c.rsv
    + a.dstISD + a.dstAS / 0x1_0000_0000 + a.dstAS / 0x1_0000 % 0x1_0000 + a.dstAS % 0x1_0000
    + a.srcISD + a.srcAS / 0x1_0000_0000 + a.srcAS / 0x1_0000 % 0x1_0000 + a.srcAS % 0x1_0000
    + InnerSum(h.inner) + StackSum(h.stack) + WordSum(rest)
  }

  lemma SumOfInner(i: Inner)
    requires i.udp.Some? && i.shim.Some? == i.md.Some?
    ensures |i.Bytes()| % 2 == 0 && WordSum(i.Bytes()) == InnerSum(i)
  {
    InnerSize(i);
    hide WordSum;
    hide Udp.Bytes;
    hide IntShim.Bytes;
    hide IntMd.Bytes;
    SumOfUdp(i.udp.value);
    if i.shim.Some? {
      SumOfShim(i.shim.value);
      SumOfMd(i.md.value);
      SumOfThree(i.udp.value.Bytes(), i.shim.value.Bytes(), i.md.value.Bytes());
    } else {
      assert i.Bytes() == i.udp.value.Bytes();
    }
  }

  lemma SumOfStack(s: IntStack)
    requires s == NO_STACK.(nodeID := s.nodeID)
    ensures |s.Bytes()| % 2 == 0 && WordSum(s.Bytes()) == StackSum(s)
  {
    if s.nodeID.Some? {
      SumOf4(s.nodeID.value);
      assert s.Bytes() == BytesOf(4, s.nodeID.value);
    } else {
      assert s.Bytes() == [];
    }
  }

  /** Hosts, info and hop fields are zero. */
  lemma SumOfScion(h: Headers)
    requires LikeExample(h)
    ensures |h.scion.Bytes()| % 2 == 0 && |h.path.Bytes()| % 2 == 0
    ensures WordSum(h.scion.Bytes() + h.path.Bytes()) ==
            WordSum(h.scion.common.value.Bytes()) + WordSum(h.scion.addr.value.Bytes())
  {
    hide ScionCommon.Bytes;
    hide AddrCommon.Bytes;
    hide WordSum;
    var c, a := h.scion.common.value.Bytes(), h.scion.addr.value.Bytes();
    SumOfZeros(4);
    SumOfZeros(32);
    assert HOST.Bytes() == Zeros(4) && h.path.Bytes() == Zeros(32);
    SumOfFour(c, a, Zeros(4), Zeros(4));
    SumOfTwo(h.scion.Bytes(), Zeros(32));
  }

  lemma ListIsFieldSum(h: Headers, rest: seq<byte>)
    requires LikeExample(h)
    ensures WordSum(UdpList(h.outer.ipv4.value, h.outer.udp.value, h, rest)) == FieldSum(h, rest)
  {
    hide WordSum;
    hide UdpList;
    hide InnerSum;
    hide StackSum;
    hide Headers.FromScion;
    hide ScionCommon.Bytes;
    hide AddrCommon.Bytes;
    SumOfAddrs(h.outer.ipv4.value);
    SumOfFront(h.outer.udp.value);
    SumOfCommon(h.scion.common.value);
    SumOfAddrCommon(h.scion.addr.value);
    SumOfFromScion(h);
    SumOfList(h, rest);
  }

  lemma SumOfFromScion(h: Headers)
    requires LikeExample(h)
    ensures |h.FromScion()| % 2 == 0
    ensures WordSum(h.FromScion()) ==
            WordSum(h.scion.common.value.Bytes()) + WordSum(h.scion.addr.value.Bytes()) + InnerSum(h.inner)
                + StackSum(h.stack)
  {
    hide WordSum;
    hide ScionCommon.Bytes;
    hide AddrCommon.Bytes;
    hide Scion.Bytes;
    hide Path.Bytes;
    hide Inner.Bytes;
    hide IntStack.Bytes;
    hide InnerSum;
    hide StackSum;
    SumOfScion(h);
    SumOfInner(h.inner);
    SumOfStack(h.stack);
    SumOfThree(h.scion.Bytes() + h.path.Bytes(), h.inner.Bytes(), h.stack.Bytes());
    var b := h.scion.Bytes() + h.path.Bytes() + h.inner.Bytes() + h.stack.Bytes();
    assert h.FromScion() == b + [];
    assert h.FromScion() == b;
  }

  lemma SumOfPayload()
    ensures WordSum(PAYLOAD) == 17618
  {
    assert PAYLOAD[2..] == [];
  }

  lemma SumOfPlain()
    ensures LikeExample(Example(2, CHECKSUM)) && FieldSum(Example(2, CHECKSUM), PAYLOAD) == 203358
  {
    SumOfPayload();
    hide WordSum;
  }

  lemma SumOfInserted(std: Std)
    ensures var h := Inserted(Example(2, CHECKSUM), 0x8000, 0, Hop(0x8000, 0, SOURCE, std));
      LikeExample(h) && FieldSum(h, PAYLOAD) == 4 * 0xffff
  {
    SumOfPayload();
    NodeIdOnly(std);
    hide WordSum;
    hide Hop;
    var hop := NO_STACK.(nodeID := Some(7));
    assert Words(hop) == 1;
    var h := Inserted(Example(2, CHECKSUM), 0x8000, 0, hop);
    assert h.inner.shim.value.First() == 20 && h.inner.md.value.Flags() == 0x200001;
  }

  /** The checksums that go with those sums. */
  lemma ExampleChecksums(std: Std)
    ensures var h := Example(2, CHECKSUM);
      var g := Inserted(h, 0x8000, 0, Hop(0x8000, 0, SOURCE, std));
      && h.outer.ipv4.Some? && h.outer.udp.Some? && g.outer.ipv4.Some? && g.outer.udp.Some?
      && Csum16(UdpList(h.outer.ipv4.value, h.outer.udp.value, h, PAYLOAD)) == CHECKSUM
      && Csum16(UdpList(g.outer.ipv4.value, g.outer.udp.value, g, PAYLOAD)) == 0
  {
    SumOfPlain();
    SumOfInserted(std);
    hide WordSum;
    hide UdpList;
    hide FieldSum;
    hide Example;
    hide Inserted;
    hide Hop;
    ListIsFieldSum(Example(2, CHECKSUM), PAYLOAD);
    ListIsFieldSum(Inserted(Example(2, CHECKSUM), 0x8000, 0, Hop(0x8000, 0, SOURCE, std)), PAYLOAD);
  }

  /** With the Internet checksum, a packet whose UDP checksum is right: the checksum that the source computes is zero,
      the sink takes that for "no checksum", and the packet it sends out differs from the original. */
  lemma ChecksumLost(tg: Target, stdA: Std, stdB: Std)
    ensures var h := Example(2, CHECKSUM);
      var y := Output(tg, h.Deparse() + PAYLOAD, SOURCE, stdA, Csum16);
      && h.outer.ipv4.Some? && h.outer.udp.Some?
      && h.outer.udp.value.checksum == Csum16(UdpList(h.outer.ipv4.value, h.outer.udp.value, h, PAYLOAD))
      && y.Some? && Output(tg, y.value, SINK, stdB, Csum16).Some?
      && Output(tg, y.value, SINK, stdB, Csum16) != Some(Emit(h, PAYLOAD, Csum16))
  {
    var h := Example(2, CHECKSUM);
    ExampleIsWellFormed(tg, PAYLOAD, CHECKSUM);
    ExampleKeys(2, CHECKSUM);
    NodeIdOnly(stdA);
    ExampleChecksums(stdA);
    hide Received;
    hide Emit;
    hide Example;
    hide PlainUdp;
    hide Inserted;
    hide Hop;
    hide WithChecksums;
    hide AtSink;
    hide UdpList;
    hide Csum16;
    hide Lookup;
    hide Forwarded;
    DoesNotSurvive(h, 0x8000, Hop(0x8000, 0, SOURCE, stdA));
    SinkUndoesSource(tg, h.Deparse() + PAYLOAD, SOURCE, SINK, stdA, stdB, Csum16, 0x8000, 0);
    SinkSends(tg, h, PAYLOAD, stdA, stdB, Csum16);
  }

  lemma DoesNotSurvive(h: Headers, instr: u16, hop: IntStack)
    requires PlainUdp(h) && h.outer.udp.Some? && h.outer.udp.value.checksum == CHECKSUM && h.outer.ipv4.Some?
    requires Csum16(UdpList(h.outer.ipv4.value, h.outer.udp.value, h, PAYLOAD)) == CHECKSUM
    requires var g := Inserted(h, instr, 0, hop);
      g.outer.ipv4.Some? && g.outer.udp.Some? && Csum16(UdpList(g.outer.ipv4.value, g.outer.udp.value, g, PAYLOAD)) == 0
    ensures !ChecksumSurvives(h, PAYLOAD, instr, 0, hop, Csum16)
  {
    hide Inserted;
    hide UdpList;
    hide Csum16;
    hide Shape;
  }

  //////////////////////////////////////////////////////////////////////
  // A saved port that is the INT port
  //////////////////////////////////////////////////////////////////////

  /** The example with an INT-MD header without a stack, which saves the given port. */
  function IntExample(n: nat, port: u16): Headers
    requires n <= 65415
  {
    Example(n + 16, 0).(inner := Inner(Some(Udp(1, INT_UDP_PORT, 24 + n, 0)), Some(IntShim(TYPE_MD, 1, 0, 3, port)),
                                       Some(IntMd(2, 0, 0, 0, 0, 0, 10, 0, 0, 0, 0))))
  }

  lemma IntExampleIsReceived(tg: Target, rest: seq<byte>, port: u16)
    requires |rest| <= 65415
    ensures Received(tg, IntExample(|rest|, port).Deparse() + rest) == Some(Accepted(IntExample(|rest|, port), rest))
    ensures Lookup(IntExample(|rest|, port), SINK) == Some(CloneInt) && Extracted(IntExample(|rest|, port))
    ensures IntExample(|rest|, port).payload == None && IntExample(|rest|, port).inner.md.Some?
    ensures IntExample(|rest|, port).inner.udp.Some?
    ensures IntExample(|rest|, port).inner.shim.Some? && IntExample(|rest|, port).inner.shim.value.udpPort == port
  {
    var h := IntExample(|rest|, port);
    assert Shape(h);
    hide Received;
    DeparseThenParse(h, rest);
    AcceptedIsReceived(tg, h.Deparse() + rest);
  }

  /** What the sink strips from a packet whose shim saves port 12345 is found again: the next parser reads the payload
      as another shim. */
  lemma AnotherShimFound(tg: Target, std: Std, csum: seq<byte> -> u16)
    ensures var y := Output(tg, IntExample(4, INT_UDP_PORT).Deparse() + Zeros(4), SINK, std, csum);
      y.Some? && Parse(y.value).Some? && Parse(y.value).value.hdr.inner.shim.Some?
  {
    IntExampleIsReceived(tg, Zeros(4), INT_UDP_PORT);
    hide IntExample;
    StrippedAgain(tg, IntExample(4, INT_UDP_PORT), std, csum);
  }

  lemma StrippedAgain(tg: Target, h: Headers, std: Std, csum: seq<byte> -> u16)
    requires Received(tg, h.Deparse() + Zeros(4)) == Some(Accepted(h, Zeros(4))) && Extracted(h) && h.payload == None
    requires Lookup(h, SINK) == Some(CloneInt) && h.inner.md.Some? && h.inner.udp.Some? && h.inner.shim.Some?
    requires h.inner.shim.value.udpPort == INT_UDP_PORT
    ensures var y := Output(tg, h.Deparse() + Zeros(4), SINK, std, csum);
      y.Some? && Parse(y.value).Some? && Parse(y.value).value.hdr.inner.shim.Some?
  {
    hide Received;
    hide WithChecksums;
    hide Headers.Deparse;
    hide Extracted;
    hide Shape;
    hide Lookup;
    hide OuterShape;
    hide PathShape;
    hide ScionShape;
    DeletedShape(h);
    DeletedPayload(h);
    var d := Deleted(h);
    hide Deleted;
    ChecksumsKeepShape(d, Zeros(4), csum);
    ShimAfter(WithChecksums(d, Zeros(4), csum), Zeros(4));
  }

  lemma DeletedPayload(h: Headers)
    requires h.inner.udp.Some? && h.inner.shim.Some?
    ensures Deleted(h).payload == h.payload && Deleted(h).cpu == h.cpu
  {
  }

  lemma ShimAfter(f: Headers, rest: seq<byte>)
    requires OuterShape(f.outer) && ToScion(f.outer) && f.cpu == None && ScionShape(f.scion)
    requires PathShape(f.scion.common.value.pathType, f.path) && f.scion.common.value.nextHdr == NEXT_UDP_SCION
    requires f.inner.udp.Some? && f.inner.udp.value.dstPort == INT_UDP_PORT && f.inner.shim == None
    requires f.inner.md == None
    requires f.stack == NO_STACK && f.payload == None && rest == Zeros(4)
    ensures var q := Parse(f.Deparse() + rest);
      q.Some? && q.value.hdr.inner.shim.Some?
  {
    hide Received;
    hide OuterShape;
    hide PathShape;
    hide ScionShape;
    hide Headers.Deparse;
    hide Outer.Bytes;
    hide Scion.Bytes;
    hide Path.Bytes;
    DeparseGroups(f, rest);
    EmptyStack();
    assert [] + [] + rest == rest;
    ParseUpToInner(Discards, f, f.inner.Bytes() + rest);
    ZeroShim(f.inner.udp.value);
  }

  lemma ZeroShim(udp: Udp)
    requires udp.dstPort == INT_UDP_PORT
    ensures var r := ParseInner(NEXT_UDP_SCION, Inner(Some(udp), None, None).Bytes() + Zeros(4));
      r.Some? && r.value.0.shim.Some? && r.value.0.md == None
  {
    hide Udp.Bytes;
    hide ReadUdp;
    var x := Inner(Some(udp), None, None).Bytes() + Zeros(4);
    assert x[..8] == udp.Bytes() && x[8..12] == Zeros(4);
    ReadUdpBytes(udp);
  }

  //////////////////////////////////////////////////////////////////////
  // An up segment and a down segment
  //////////////////////////////////////////////////////////////////////

  /** The example on a path of two segments, of two and of three hop fields, with a shim, an MD header and a hop that
      holds node id 7. */
  function TwoSegments(up: seq<byte>, down: seq<byte>, hopFields: seq<byte>): Headers {
    Headers(Outer(Some(Ethernet(1, 2, ETHERTYPE_IPV4)), Some(Ipv4(0x45, 0, 172, 0, 0, 64, PROTO_UDP, 0, 1, 2)),
                  Some(Udp(1, SCION_PORT, 152, 0))),
            None,
            Scion(Some(ScionCommon(0, 0, 1, NEXT_UDP_SCION, 29, 28, PATH_SCION, 0, 0, 0, 0, 0)),
                  Some(AddrCommon(1, 0xff00, 2, 0xff01)), HOST, HOST),
            Path(Some(PathMeta(0, 0, 2, 3, 0)), Some(up), Some(down), None, Some(hopFields)),
            Inner(Some(Udp(1, INT_UDP_PORT, 28, 0)), Some(IntShim(TYPE_MD, 1, 0, 4, 80)),
                  Some(IntMd(2, 0, 0, 0, 0, 1, 9, 0x8000, 0, 0, 0))),
            NO_STACK.(pre := Some([0, 0, 0, 7])), Some([]))
  }

  /** The parser reads both info fields and then the hop fields, and finds the telemetry behind them. */
  lemma TwoSegmentsParse(up: seq<byte>, down: seq<byte>, hopFields: seq<byte>)
    requires |up| == |down| == 8 && |hopFields| == 60
    ensures var h := TwoSegments(up, down, hopFields);
      && Parse(h.Deparse()) == Some(Accepted(h, [])) && LengthsDescribe(h, [])
      && h.path.Bytes() == [0, 0, 0x20, 0xc0] + up + down + hopFields
  {
    TwoSegmentsShape(up, down, hopFields);
    TwoSegmentsLengths(up, down, hopFields);
    TwoSegmentsPath(up, down, hopFields);
    ParsesAlone(TwoSegments(up, down, hopFields));
    hide *;
  }

  lemma ParsesAlone(h: Headers)
    requires Shape(h)
    ensures Parse(h.Deparse()) == Some(Accepted(h, []))
  {
    assert h.Deparse() + [] == h.Deparse();
    hide *;
    DeparseThenParse(h, []);
  }

  lemma TwoSegmentsPath(up: seq<byte>, down: seq<byte>, hopFields: seq<byte>)
    ensures TwoSegments(up, down, hopFields).path.Bytes() == [0, 0, 0x20, 0xc0] + up + down + hopFields
  {
    MetaBytes();
    hide PathMeta.Bytes;
    var meta := PathMeta(0, 0, 2, 3, 0).Bytes();
    assert TwoSegments(up, down, hopFields).path.Bytes() == meta + up + down + [] + hopFields;
    assert meta + up + down + [] == meta + up + down;
  }

  lemma MetaBytes()
    ensures PathMeta(0, 0, 2, 3, 0).Bytes() == [0, 0, 0x20, 0xc0]
  {
  }

  lemma TwoSegmentsShape(up: seq<byte>, down: seq<byte>, hopFields: seq<byte>)
    requires |up| == |down| == 8 && |hopFields| == 60
    ensures Shape(TwoSegments(up, down, hopFields))
  {
    var h := TwoSegments(up, down, hopFields);
    assert OuterShape(h.outer) && ToScion(h.outer) && ScionShape(h.scion);
    assert InnerShape(h.scion.common.value.nextHdr, h.inner);
    assert PathShape(h.scion.common.value.pathType, h.path);
    assert StackShape(h.inner, h.scion.common.value.payloadLen, h.stack, h.payload);
    hide OuterShape;
    hide ScionShape;
    hide InnerShape;
    hide PathShape;
    hide StackShape;
  }

  lemma TwoSegmentsLengths(up: seq<byte>, down: seq<byte>, hopFields: seq<byte>)
    requires |up| == |down| == 8 && |hopFields| == 60
    ensures LengthsDescribe(TwoSegments(up, down, hopFields), [])
  {
    var h := TwoSegments(up, down, hopFields);
    assert ScionShape(h.scion) && PathShape(h.scion.common.value.pathType, h.path);
    Sizes(h);
    ScionLength(h.scion);
    InnerSize(h.inner);
    PathLength(h.scion.common.value.pathType, h.path);
    EndToEnd.PreBytes([0, 0, 0, 7]);
    hide Scion.Bytes;
    hide Path.Bytes;
    hide Inner.Bytes;
    hide IntStack.Bytes;
    hide ScionShape;
    hide PathShape;
  }

  //////////////////////////////////////////////////////////////////////
  // Lengths and bitmaps
  //////////////////////////////////////////////////////////////////////

  /** A 16-bit length overflows on insertion into a packet of 65524 bytes. */
  lemma LengthOverflows(std: Std)
    ensures LengthsDescribe(Example(65420, 0), Zeros(65420))
    ensures Example(65420, 0).inner.udp.Some?
    ensures !LengthsDescribe(Inserted(Example(65420, 0), 0x8000, 0, Hop(0x8000, 0, SOURCE, std)), Zeros(65420))
  {
    ExampleIsWellFormed(Discards, Zeros(65420), 0);
    NodeIdOnly(std);
    InsertKeepsLengths(Example(65420, 0), Zeros(65420), 0x8000, 0, Hop(0x8000, 0, SOURCE, std));
  }

  /** The example with a shim of another type, which claims one word more. */
  function OtherShim(n: nat): Headers
    requires n <= 65427
  {
    Example(n + 4, 0).(inner := Inner(Some(Udp(1, INT_UDP_PORT, 12 + n, 0)), Some(IntShim(2, 1, 0, 1, 80)), None))
  }

  /** Deletion takes 8 off the lengths and 4 bytes out of the packet. */
  lemma OtherShimMiscounted(tg: Target, std: Std)
    ensures var h, rest := OtherShim(4), Zeros(4);
      && Received(tg, h.Deparse() + rest) == Some(Accepted(h, rest)) && LengthsDescribe(h, rest)
      && !LengthsDescribe(Forwarded(h, SINK, std), rest) && LengthsShort(Forwarded(h, SINK, std), rest, 4)
  {
    hide LengthsDescribe;
    hide LengthsShort;
    hide Received;
    hide Headers.Deparse;
    hide Forwarded;
    hide Lookup;
    OtherShimHeaders();
    hide OtherShim;
    hide Shape;
    var h, rest := OtherShim(4), Zeros(4);
    DeparseThenParse(h, rest);
    AcceptedIsReceived(tg, h.Deparse() + rest);
    SinkKeepsLengths(tg, h.Deparse() + rest, SINK, std);
  }

  lemma OtherShimHeaders()
    ensures var h := OtherShim(4);
      && Shape(h) && h.inner.md.None? && h.inner.shim.Some? && h.inner.shim.value.length == 1
      && IntSize(h) == 4 && LengthsDescribe(h, Zeros(4)) && Lookup(h, SINK) == Some(CloneInt)
  {
    OtherShimShape();
    ShimLengths(OtherShim(4), Zeros(4));
    EmptyStack();
    hide Shape;
    hide LengthsDescribe;
  }

  lemma OtherShimShape()
    ensures Shape(OtherShim(4)) && ScionShape(OtherShim(4).scion)
  {
    var h := OtherShim(4);
    assert OuterShape(h.outer) && ToScion(h.outer) && ScionShape(h.scion);
    assert InnerShape(h.scion.common.value.nextHdr, h.inner);
    assert PathShape(h.scion.common.value.pathType, h.path);
    assert StackShape(h.inner, h.scion.common.value.payloadLen, h.stack, h.payload);
    hide OuterShape;
    hide ScionShape;
    hide InnerShape;
    hide PathShape;
    hide StackShape;
  }

  lemma ShimLengths(h: Headers, rest: seq<byte>)
    requires |rest| <= 65427 && ScionShape(h.scion) && h.stack == NO_STACK && h.payload == None
    requires h.inner.udp.Some? && h.inner.shim.Some?
    requires var n := (if h.inner.md.Some? then 16 else 4) + |rest|;
      n <= 65431 && h == Example(n, 0).(inner := h.inner) && h.inner.udp.value.len == 8 + n
    ensures LengthsDescribe(h, rest)
  {
    Sizes(h);
    ScionLength(h.scion);
    InnerSize(h.inner);
    EmptyStack();
  }

  /** The example with an INT-MD header and a stack of 66 words, one more than the varbit field has room for. */
  function LongStack(n: nat): Headers
    requires n <= 65415
  {
    Example(n + 16, 0).(inner := Inner(Some(Udp(1, INT_UDP_PORT, 24 + n, 0)), Some(IntShim(TYPE_MD, 1, 0, 69, 80)),
                                       Some(IntMd(2, 0, 0, 0, 0, 6, 0, 0xff80, 0, 1, 0))))
  }

  /** A target that discards loses the packet. One that continues takes out 16 bytes and 280 off the lengths: the 264
      bytes of the stack stay in front of the payload. */
  lemma StackTooLong(std: Std)
    ensures var h, rest := LongStack(268), Zeros(268);
      var x := h.Deparse() + rest;
      && Parse(x) == None && Received(Continues, x) == Some(Accepted(h, rest)) && LengthsDescribe(h, rest)
      && !LengthsDescribe(Forwarded(h, SINK, std), rest) && LengthsShort(Forwarded(h, SINK, std), rest, 264)
  {
    hide LengthsDescribe;
    hide LengthsShort;
    hide Received;
    hide Headers.Deparse;
    hide Forwarded;
    hide Lookup;
    LongStackHeaders();
    hide LongStack;
    hide OuterShape;
    hide ScionShape;
    hide PathShape;
    hide InnerShape;
    var h, rest := LongStack(268), Zeros(268);
    StackDoesNotFit(h, rest);
    SinkKeepsLengths(Continues, h.Deparse() + rest, SINK, std);
  }

  lemma LongStackHeaders()
    ensures var h := LongStack(268);
      && OuterShape(h.outer) && ToScion(h.outer) && h.cpu == None && ScionShape(h.scion)
      && PathShape(h.scion.common.value.pathType, h.path) && InnerShape(h.scion.common.value.nextHdr, h.inner)
      && h.inner.md.Some? && h.inner.shim.value.length == 69 && h.stack == NO_STACK && h.payload == None
      && IntSize(h) == 16 && LengthsDescribe(h, Zeros(268)) && Lookup(h, SINK) == Some(CloneInt)
  {
    ShimLengths(LongStack(268), Zeros(268));
    EmptyStack();
  }

  lemma StackDoesNotFit(h: Headers, rest: seq<byte>)
    requires OuterShape(h.outer) && ToScion(h.outer) && h.cpu == None && ScionShape(h.scion)
    requires PathShape(h.scion.common.value.pathType, h.path)
    requires InnerShape(h.scion.common.value.nextHdr, h.inner)
    requires h.inner.md.Some? && h.inner.shim.value.length > 68 && h.stack == NO_STACK && h.payload == None
    ensures Parse(h.Deparse() + rest) == None
    ensures Received(Continues, h.Deparse() + rest) == Some(Accepted(h, rest))
  {
    hide Received;
    hide OuterShape;
    hide ScionShape;
    hide PathShape;
    hide Headers.Deparse;
    hide FromOuter;
    var len: int := h.inner.shim.value.length;
    assert StackBits(h.inner.shim.value.length) == 32 * (len - 3);
    hide StackBits;
    NoStackOnWire(h, rest);
    assert FromOuter(h, h.inner.Bytes(), rest)
        == h.outer.Bytes() + (h.scion.Bytes() + (h.path.Bytes() + (h.inner.Bytes() + rest))) by { AllBytes(h, rest); }
    hide Outer.Bytes;
    hide Scion.Bytes;
    hide Path.Bytes;
    hide Inner.Bytes;
    ParseUpToStack(Discards, h, rest);
    ParseUpToStack(Continues, h, rest);
  }

  lemma AllBytes(h: Headers, rest: seq<byte>)
    ensures FromOuter(h, h.inner.Bytes(), rest)
         == h.outer.Bytes() + (h.scion.Bytes() + (h.path.Bytes() + (h.inner.Bytes() + rest)))
  {
  }

  /** SOURCE with other bitmaps, and with a utilisation for every port. */
  function SourceWith(bits: u16): Tables {
    SOURCE.(scionInt := map[(1, 0xff00) := InsertInt(bits, 0)], txUtil := map p: u9 | 0 <= p < 512 :: (1, p) := 0)
  }

  lemma SomeBits()
    ensures !Bit(0, 0) && !Bit(0, 8) && !Bit(0, 10) && !Bit(0, 11) && !Bit(0, 15)
    ensures !Bit(0xc000, 8) && !Bit(0xc000, 10) && !Bit(0xc000, 11) && Bit(0xc000, 14) && Bit(0xc000, 15)
  {
    assert Bit(0xc000, 15);
    assert Bit(0xc000, 14);
  }

  lemma Widths(bits: u16, std: Std)
    requires bits == 0 || bits == 0xc000
    ensures EndToEnd.FlagTables(SourceWith(bits), 7, 0xff01)
    ensures var words := Words(Hop(bits, 0, SourceWith(bits), std));
      words == 0 || (words == 1 && HopWidth(bits, 0) >= 8)
  {
    SomeBits();
    assert EndToEnd.FlagTables(SourceWith(bits), 7, 0xff01) by {
      hide Bit;
    }
    hide Bit;
    hide HopWidth;
    hide Words;
    hide Hop;
    hide EndToEnd.FlagTables;
    EndToEnd.HopWords(bits, 0, SourceWith(bits), std, 7, 0xff01);
    EndToEnd.Offsets(bits, 0);
  }

  /** The bitmaps of a table line with no bits set, and with one bit the data plane does not write: the controller
      divides by zero, or reads past the end of the CPU copy. */
  lemma DecodesNothing(tg: Target, bits: u16, std: Std, csum: seq<byte> -> u16)
    requires bits == 0 || bits == 0xc000
    ensures var y := Output(tg, Example(0, 0).Deparse(), SourceWith(bits), std, csum);
      && y.Some? && ToCpu(tg, y.value, SINK, csum).Some?
      && Decoded(ToCpu(tg, y.value, SINK, csum).value, 8) == Undefined
  {
    hide Received;
    hide PlainUdp;
    hide Example;
    hide Output;
    hide ToCpu;
    hide Decoded;
    hide HopWidth;
    hide EndToEnd.FlagTables;
    hide EndToEnd.Telemetry;
    hide EndToEnd.ReportsHop;
    hide EndToEnd.Supported;
    hide EndToEnd.TopicOf;
    hide Words;
    hide Hop;
    hide SourceWith;
    hide Lookup;
    hide Headers.Deparse;
    var h := Example(0, 0);
    var x := h.Deparse();
    ExampleIsWellFormed(tg, [], 0);
    ExampleKeys(0, 0);
    SourceWithKey(bits);
    Widths(bits, std);
    assert x + [] == x;
    EndToEnd.EndToEndTelemetry(tg, x, SourceWith(bits), SINK, std, csum, bits, 0, 7, 0xff01, 8);
  }

  lemma SourceWithKey(bits: u16)
    ensures Lookup(Example(0, 0), SourceWith(bits)) == Some(InsertInt(bits, 0))
  {
  }
}
