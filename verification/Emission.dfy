/** The checksums of the packets that leave the switch, checked as a receiver checks them: by summing up words of the
    packet (RFC 791, RFC 768 and RFC 1071). */
module Emission {
  import opened Bits
  import opened Headers
  import opened Parser
  import opened IntSwitch
  import opened SourceSink
  import opened Checksum
  import opened RawPacket

  /** A sum of 16-bit words is right if it is all ones in one's complement, that is, a multiple of 0xffff. */
  predicate SumsUp(b: seq<byte>) {
    WordSum(b) % 0xffff == 0
  }

  lemma ChecksumCompletes(list: seq<byte>, sum: nat)
    requires sum == WordSum(list) + Csum16(list)
    ensures sum % 0xffff == 0
  {
    var s := WordSum(list);
    if s > 0 {
      assert s - 1 == (s - 1) / 0xffff * 0xffff + (s - 1) % 0xffff;
      assert sum == ((s - 1) / 0xffff + 1) * 0xffff;
    }
  }

  /** The IPv4 header with a checksum over its list. */
  lemma HeaderSumsUp(ip: Ipv4)
    ensures SumsUp(ip.(hdrChecksum := Csum16(Ipv4List(ip))).Bytes())
  {
    hide WordSum;
    hide Csum16;
    hide BytesOf;
    hide Ipv4.Front;
    hide Ipv4.Addrs;
    var c := Csum16(Ipv4List(ip));
    var g := ip.(hdrChecksum := c);
    SamePieces(ip, c);
    SumOf2(c);
    SumOfThree(ip.Front(), BytesOf(2, c), ip.Addrs());
    SumOfTwo(ip.Front(), ip.Addrs());
    ChecksumCompletes(Ipv4List(ip), WordSum(g.Bytes()));
  }

  lemma SamePieces(ip: Ipv4, c: u16)
    ensures ip.(hdrChecksum := c).Front() == ip.Front() && ip.(hdrChecksum := c).Addrs() == ip.Addrs()
  {
  }

  /** Where outer headers are in a packet that starts with all three, or with the first two. */
  lemma OuterSlices(o: Outer, tail: seq<byte>)
    requires o.ethernet.Some? && o.ipv4.Some?
    ensures var y, ip := o.Bytes() + tail, o.ipv4.value;
      && |y| >= 34 && y[14..34] == ip.Bytes() && y[26..34] == ip.Addrs() && y[23] == ip.protocol
    ensures o.udp.Some? ==>
              var y, u := o.Bytes() + tail, o.udp.value;
              && |y| >= 42 && y[34..] == u.Bytes() + tail && y[38..40] == BytesOf(2, u.len)
              && y[40..42] == BytesOf(2, u.checksum)
  {
    hide Ethernet.Bytes;
    hide BytesOf;
    var y, ip := o.Bytes() + tail, o.ipv4.value;
    assert y[14..34] == ip.Bytes();
    assert ip.Bytes()[12..20] == ip.Addrs();
    assert y[26..34] == y[14..34][12..20];
    assert ip.Bytes()[9] == ip.protocol by { ProtocolByte(ip); }
    assert y[23] == y[14..34][9];
    if o.udp.Some? {
      var u := o.udp.value;
      assert y[34..] == u.Bytes() + tail;
      assert u.Bytes()[4..6] == BytesOf(2, u.len) && u.Bytes()[6..8] == BytesOf(2, u.checksum);
      assert y[38..40] == y[34..][4..6] && y[40..42] == y[34..][6..8];
    }
  }

  lemma ProtocolByte(ip: Ipv4)
    ensures ip.Bytes()[9] == ip.protocol
  {
    assert BytesOf(0, ip.protocol / 256) == [] && BytesOf(1, ip.protocol) == [ip.protocol];
    var f := ip.Front();
    assert f[9..10] == BytesOf(1, ip.protocol);
    assert f[9] == f[9..10][0];
    assert ip.Bytes()[9] == f[9];
  }

  /** The words that the UDP checksum of packet y covers: both addresses, zero and the protocol, the UDP length, and
      everything from the UDP header on. */
  function Covered(y: seq<byte>): seq<byte>
    requires |y| >= 42
  {
    y[26..34] + [0, y[23]] + y[38..40] + y[34..]
  }

  lemma DatagramSumsUp(ip: Ipv4, udp: Udp, h: Headers, rest: seq<byte>)
    ensures var u := udp.(checksum := Csum16(UdpList(ip, udp, h, rest)));
      SumsUp(ip.Addrs() + [0, ip.protocol] + BytesOf(2, udp.len) + (u.Bytes() + (h.FromScion() + rest)))
  {
    hide WordSum;
    hide Csum16;
    hide BytesOf;
    hide Udp.Front;
    hide Ipv4.Addrs;
    hide Headers.FromScion;
    var list := UdpList(ip, udp, h, rest);
    var c := Csum16(list);
    var u := udp.(checksum := c);
    assert u.Front() == udp.Front() by { SameFront(udp, c); }
    var a, data := ip.Addrs() + [0, ip.protocol] + BytesOf(2, udp.len), h.FromScion() + rest;
    assert list == a + udp.Front() + data;
    assert a + (u.Bytes() + data) == a + udp.Front() + BytesOf(2, c) + data;
    SumOf2(c);
    SumOfThree(a, udp.Front(), data);
    SumOfFour(a, udp.Front(), BytesOf(2, c), data);
    ChecksumCompletes(list, WordSum(a + (u.Bytes() + data)));
  }

  lemma SameFront(udp: Udp, c: u16)
    ensures udp.(checksum := c).Front() == udp.Front()
  {
  }

  /** An IPv4 packet as it is emitted, with the Internet checksum. */
  lemma EmittedSumsUp(h: Headers, rest: seq<byte>)
    requires h.outer.ethernet.Some? && h.outer.ipv4.Some? && h.cpu == None
    ensures var y := Emit(h, rest, Csum16);
      && |y| >= 34 && SumsUp(y[14..34])
      && (h.outer.udp.Some? ==>
            && |y| >= 42
            && (if h.outer.udp.value.checksum == 0 then y[40..42] == [0, 0] else SumsUp(Covered(y))))
  {
    hide SumsUp;
    hide Csum16;
    hide Ipv4List;
    hide UdpList;
    hide Ipv4.Bytes;
    hide Udp.Bytes;
    hide Outer.Bytes;
    hide Headers.FromScion;
    hide BytesOf;
    var g := WithChecksums(h, rest, Csum16);
    var tail := g.FromScion() + rest;
    SameTail(h, rest);
    assert Emit(h, rest, Csum16) == g.outer.Bytes() + tail by { DeparsesOuter(g, rest); }
    OuterSlices(g.outer, tail);
    HeaderSumsUp(h.outer.ipv4.value);
    SamePieces(h.outer.ipv4.value, g.outer.ipv4.value.hdrChecksum);
    if h.outer.udp.Some? {
      if h.outer.udp.value.checksum == 0 {
        ZeroWord();
      } else {
        DatagramSumsUp(h.outer.ipv4.value, h.outer.udp.value, h, rest);
      }
    }
  }

  lemma ZeroWord()
    ensures BytesOf(2, 0) == [0, 0]
  {
    assert BytesOf(0, 0) == [] && BytesOf(1, 0) == [0];
  }

  lemma SameTail(h: Headers, rest: seq<byte>)
    ensures WithChecksums(h, rest, Csum16).FromScion() == h.FromScion()
  {
    hide UdpList;
    hide Ipv4List;
    hide Csum16;
  }

  lemma DeparsesOuter(g: Headers, rest: seq<byte>)
    requires g.cpu == None
    ensures g.Deparse() + rest == g.outer.Bytes() + (g.FromScion() + rest)
  {
    hide Outer.Bytes;
    hide Headers.FromScion;
    assert g.outer.Bytes() + [] == g.outer.Bytes();
  }

  /** Whatever comes in and whatever the tables say: every IPv4 header that leaves adds up, and so does every UDP
      datagram with its pseudo-header, unless it came without a checksum and leaves without one. */
  lemma OutputSumsUp(tg: Target, x: seq<byte>, t: Tables, std: Std)
    requires Received(tg, x).Some? && HasIpv4(x)
    ensures var y := Output(tg, x, t, std, Csum16);
      && y.Some? && |y.value| >= 34 && SumsUp(y.value[14..34])
      && (HasUdp(x) ==>
            && |y.value| >= 42
            && (if U16At(x, 40) == 0 then y.value[40..42] == [0, 0] else SumsUp(Covered(y.value))))
  {
    hide SumsUp;
    hide Csum16;
    hide Emit;
    hide Lookup;
    ReceivedThenDeparse(tg, x);
    SameForBoth(tg, x);
    var p := Received(tg, x).value;
    hide Received;
    OuterRaw(x);
    hide HeadersOf;
    hide ReadEthernet;
    hide ReadIpv4;
    if HasUdp(x) {
      UdpLayout(x[34..42]);
    }
    hide ReadUdp;
    KeepsOuter(p.hdr, t, std);
    EmittedSumsUp(Forwarded(p.hdr, t, std), p.rest);
    hide Forwarded;
    hide Extracted;
  }

  lemma SameForBoth(tg: Target, x: seq<byte>)
    requires Received(tg, x).Some?
    ensures Received(tg, x) == Received(Continues, x)
  {
    if tg.Discards? {
      AcceptedIsReceived(Continues, x);
    }
  }

  lemma KeepsOuter(h: Headers, t: Tables, std: Std)
    ensures var f := Forwarded(h, t, std);
      && f.outer.ethernet == h.outer.ethernet && f.cpu == h.cpu
      && f.outer.ipv4.Some? == h.outer.ipv4.Some? && f.outer.udp.Some? == h.outer.udp.Some?
      && (h.outer.udp.Some? ==> f.outer.udp.value.checksum == h.outer.udp.value.checksum)
  {
    hide Lookup;
    hide Hop;
    hide Words;
    hide Mod16;
  }
}
