/** The Internet checksum (RFC 1071), the csum16 of the target, as sums over the headers. */
module Checksum {
  import opened Bits
  import opened Headers

  /** The sum of the 16-bit words of b. */
  function WordSum(b: seq<byte>): nat {
    if |b| == 0 then 0
    else if |b| == 1 then b[0] * 256
    else b[0] * 256 + b[1] + WordSum(b[2..])
  }

  /** The one's complement of the one's complement sum. */
  function Csum16(b: seq<byte>): u16 {
    var s := WordSum(b);
    if s == 0 then 0xffff else 0xffff - ((s - 1) % 0xffff + 1)
  }

  lemma {:induction false} SumOfTwo(a: seq<byte>, b: seq<byte>)
    requires |a| % 2 == 0
    ensures WordSum(a + b) == WordSum(a) + WordSum(b)
  {
    if a == [] {
      assert a + b == b;
    } else {
      assert (a + b)[2..] == a[2..] + b;
      SumOfTwo(a[2..], b);
    }
  }

  lemma {:induction false} SumOfZeros(n: nat)
    ensures WordSum(seq(n, i => 0)) == 0
  {
    if n >= 2 {
      SumOfZeros(n - 2);
      assert seq(n, i => 0)[2..] == seq(n - 2, i => 0);
    }
  }

  lemma SumOfBytes(a: byte, b: byte)
    ensures WordSum(BytesOf(1, a) + BytesOf(1, b)) == a * 256 + b
  {
    var s := BytesOf(1, a) + BytesOf(1, b);
    assert BytesOf(0, a / 256) == [] && BytesOf(0, b / 256) == [];
    assert s == [a, b];
  }

  lemma SumOf2(v: u16)
    ensures WordSum(BytesOf(2, v)) == v
  {
    SumOfBytes(v / 256, v % 256);
    assert BytesOf(2, v) == BytesOf(1, v / 256) + BytesOf(1, v % 256);
  }

  lemma SplitWord(n: nat, v: nat)
    ensures BytesOf(n + 2, v) == BytesOf(n, v / 0x1_0000) + BytesOf(2, v % 0x1_0000)
  {
    assert v / 256 / 256 == v / 0x1_0000 && v / 256 % 256 == v % 0x1_0000 / 256;
    assert BytesOf(n + 2, v) == BytesOf(n, v / 256 / 256) + [v / 256 % 256] + [v % 256];
    assert BytesOf(2, v % 0x1_0000) == [v % 0x1_0000 / 256] + [v % 256];
  }

  lemma SumOf4(v: u32)
    ensures WordSum(BytesOf(4, v)) == v / 0x1_0000 + v % 0x1_0000
  {
    hide BytesOf;
    SplitWord(2, v);
    SumOf2(v / 0x1_0000);
    SumOf2(v % 0x1_0000);
    SumOfTwo(BytesOf(2, v / 0x1_0000), BytesOf(2, v % 0x1_0000));
  }

  lemma SumOf6(v: u48)
    ensures WordSum(BytesOf(6, v)) == v / 0x1_0000_0000 + v / 0x1_0000 % 0x1_0000 + v % 0x1_0000
  {
    hide BytesOf;
    SplitWord(4, v);
    SumOf4(v / 0x1_0000);
    SumOf2(v % 0x1_0000);
    SumOfTwo(BytesOf(4, v / 0x1_0000), BytesOf(2, v % 0x1_0000));
  }

  lemma SumOfThree(a: seq<byte>, b: seq<byte>, c: seq<byte>)
    requires |a| % 2 == |b| % 2 == 0
    ensures WordSum(a + b + c) == WordSum(a) + WordSum(b) + WordSum(c)
  {
    SumOfTwo(a, b);
    SumOfTwo(a + b, c);
  }

  lemma SumOfFour(a: seq<byte>, b: seq<byte>, c: seq<byte>, d: seq<byte>)
    requires |a| % 2 == |b| % 2 == |c| % 2 == 0
    ensures WordSum(a + b + c + d) == WordSum(a) + WordSum(b) + WordSum(c) + WordSum(d)
  {
    SumOfThree(a, b, c);
    SumOfTwo(a + b + c, d);
  }

  lemma SumOfFront(u: Udp)
    ensures WordSum(u.Front()) == u.srcPort + u.dstPort + u.len
  {
    hide BytesOf;
    hide WordSum;
    SumOf2(u.srcPort);
    SumOf2(u.dstPort);
    SumOf2(u.len);
    SumOfThree(BytesOf(2, u.srcPort), BytesOf(2, u.dstPort), BytesOf(2, u.len));
  }

  lemma SumOfUdp(u: Udp)
    ensures WordSum(u.Bytes()) == u.srcPort + u.dstPort + u.len + u.checksum
  {
    hide BytesOf;
    hide WordSum;
    SumOfFront(u);
    SumOf2(u.checksum);
    SumOfTwo(u.Front(), BytesOf(2, u.checksum));
  }

  lemma SumOfAddrs(ip: Ipv4)
    ensures WordSum(ip.Addrs())
         == ip.srcAddr / 0x1_0000 + ip.srcAddr % 0x1_0000 + ip.dstAddr / 0x1_0000 + ip.dstAddr % 0x1_0000
  {
    hide BytesOf;
    hide WordSum;
    SumOf4(ip.srcAddr);
    SumOf4(ip.dstAddr);
    SumOfTwo(BytesOf(4, ip.srcAddr), BytesOf(4, ip.dstAddr));
  }

  lemma SumOfCommon(c: ScionCommon)
    ensures WordSum(c.Bytes())
         == c.FirstWord() / 0x1_0000 + c.FirstWord() % 0x1_0000 + c.nextHdr * 256 + c.hdrLen + c.payloadLen
            + c.pathType * 256 + c.Lengths() + c.rsv
  {
    hide BytesOf;
    hide WordSum;
    hide ScionCommon.FirstWord;
    hide ScionCommon.Lengths;
    SumOf4(c.FirstWord());
    SumOfBytes(c.nextHdr, c.hdrLen);
    SumOf2(c.payloadLen);
    SumOfBytes(c.pathType, c.Lengths());
    SumOf2(c.rsv);
    var w, n, p := BytesOf(4, c.FirstWord()), BytesOf(1, c.nextHdr) + BytesOf(1, c.hdrLen), BytesOf(2, c.payloadLen);
    var t := BytesOf(1, c.pathType) + BytesOf(1, c.Lengths());
    SumOfFour(w, n, p, t);
    SumOfTwo(w + n + p + t, BytesOf(2, c.rsv));
    assert c.Bytes() == w + n + p + t + BytesOf(2, c.rsv);
  }

  lemma SumOfAddrCommon(a: AddrCommon)
    ensures WordSum(a.Bytes())
         == a.dstISD + a.dstAS / 0x1_0000_0000 + a.dstAS / 0x1_0000 % 0x1_0000 + a.dstAS % 0x1_0000
            + a.srcISD + a.srcAS / 0x1_0000_0000 + a.srcAS / 0x1_0000 % 0x1_0000 + a.srcAS % 0x1_0000
  {
    hide BytesOf;
    hide WordSum;
    SumOf2(a.dstISD);
    SumOf6(a.dstAS);
    SumOf2(a.srcISD);
    SumOf6(a.srcAS);
    SumOfFour(BytesOf(2, a.dstISD), BytesOf(6, a.dstAS), BytesOf(2, a.srcISD), BytesOf(6, a.srcAS));
  }

  lemma SumOfShim(s: IntShim)
    ensures WordSum(s.Bytes()) == s.First() * 256 + s.length + s.udpPort
  {
    hide BytesOf;
    hide WordSum;
    hide IntShim.First;
    SumOfBytes(s.First(), s.length);
    SumOf2(s.udpPort);
    SumOfTwo(BytesOf(1, s.First()) + BytesOf(1, s.length), BytesOf(2, s.udpPort));
  }

  lemma SumOfMd(m: IntMd)
    ensures WordSum(m.Bytes())
         == m.Flags() / 256 + m.Flags() % 256 * 256 + m.remainingHopCount + m.instructionBitmap + m.domainID
            + m.domainInstructions + m.domainFlags
  {
    var f := m.Flags();
    assert BytesOf(3, f) == BytesOf(2, f / 256) + BytesOf(1, f % 256);
    hide BytesOf;
    hide WordSum;
    hide IntMd.Flags;
    SumOf2(f / 256);
    SumOfBytes(f % 256, m.remainingHopCount);
    SumOf2(m.instructionBitmap);
    SumOf2(m.domainID);
    SumOf2(m.domainInstructions);
    SumOf2(m.domainFlags);
    var a, b := BytesOf(2, f / 256), BytesOf(1, f % 256) + BytesOf(1, m.remainingHopCount);
    var c, d := BytesOf(2, m.instructionBitmap), BytesOf(2, m.domainID);
    SumOfFour(a, b, c, d);
    SumOfThree(a + b + c + d, BytesOf(2, m.domainInstructions), BytesOf(2, m.domainFlags));
    assert m.Bytes() == a + b + c + d + BytesOf(2, m.domainInstructions) + BytesOf(2, m.domainFlags);
  }
}
