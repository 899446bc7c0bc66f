/** IntSwitchParser as the source writes it: states extract into the headers and add to
    meta.cpuHdrLen. A method returning false stopped at an error; what was extracted before stays. */
module ParserStates {
  import opened Bits
  import opened Headers
  import opened Parser

  class IntSwitchParser {
    /** What is left of the packet. */
    var packet: seq<byte>
    var outer: Outer
    var scion: Scion
    var path: Path
    var inner: Inner
    var stack: IntStack
    var payload: Option<seq<byte>>
    /** The metadata the parser sets; the flags it clears are zero already. */
    var cpuHdrLen: u64
    var intStackLen: u32

    function Hdr(): Headers
      reads this
    {
      Headers(outer, None, scion, path, inner, stack, payload)
    }

    constructor (x: seq<byte>)
      ensures packet == x && Hdr() == NO_HEADERS && cpuHdrLen == intStackLen == 0
    {
      packet, outer, scion, path, inner, stack := x, NO_HEADERS.outer, NO_SCION, NO_PATH, NO_INNER, NO_STACK;
      payload, cpuHdrLen, intStackLen := None, 0, 0;
    }

    method Extract(n: nat) returns (ok: bool, b: seq<byte>)
      modifies `packet
      ensures ok == (|old(packet)| >= n)
      ensures ok ==> b == old(packet)[..n] && packet == old(packet)[n..]
      ensures !ok ==> packet == old(packet)
    {
      ok, b := |packet| >= n, [];
      if ok {
        b, packet := packet[..n], packet[n..];
      }
    }

    /** States start, ipv4 and udp. */
    method OuterStates() returns (ok: bool)
      requires outer == NO_OUTER
      modifies `packet, `outer
      ensures ok == ParseOuter(old(packet)).Some?
      ensures ok ==> ParseOuter(old(packet)) == Some((outer, packet))
      ensures !ok ==> OuterSoFar(old(packet)) == (outer, packet)
    {
      hide Outer.Bytes;
      hide ReadEthernet;
      hide ReadIpv4;
      hide ReadUdp;
      var b;
      ghost var x := packet;
      ok, b := Extract(14);
      if !ok { return; }
      var eth := ReadEthernet(b);
      outer := Outer(Some(eth), None, None);
      if eth.etherType != ETHERTYPE_IPV4 { return; }
      ok, b := Extract(20);
      if !ok { return; }
      assert b == x[14..34] && packet == x[34..];
      var ip := ReadIpv4(b);
      outer := outer.(ipv4 := Some(ip));
      if ip.protocol != PROTO_UDP { return; }
      ok, b := Extract(8);
      if !ok { return; }
      assert b == x[34..42] && packet == x[42..];
      outer := outer.(udp := Some(ReadUdp(b)));
    }

    /** The 32-bit words, or the one 128-bit word, of a host address of length code l. */
    method ExtractHost(l: u2) returns (ok: bool, h: Host)
      modifies `packet
      ensures ok == ParseHost(l, old(packet)).Some?
      ensures ok ==> ParseHost(l, old(packet)) == Some((h, packet))
      ensures !ok ==> HostSoFar(l, old(packet)) == (h, packet)
    {
      hide Host.Bytes;
      ghost var x := packet;
      h := NO_HOST;
      var b;
      if l == 3 {
        ok, b := Extract(16);
        if !ok { return; }
        h := h.(wide := Some(b));
        return;
      }
      ok, b := Extract(4);
      if !ok { return; }
      h := h.(first := Some(b));
      if l >= 1 {
        ok, b := Extract(4);
        if !ok { return; }
        assert b == x[4..8] && packet == x[8..];
        h := h.(second := Some(b));
      }
      if l == 2 {
        ok, b := Extract(4);
        if !ok { return; }
        assert b == x[8..12] && packet == x[12..];
        h := h.(third := Some(b));
      }
    }

    /** ScionCommonParser and ScionAdressParser, with one state per pair of lengths. */
    method ScionStates() returns (ok: bool)
      requires cpuHdrLen == 0 && scion == NO_SCION
      modifies `packet, `scion, `cpuHdrLen
      ensures ok == ParseScion(old(packet)).Some?
      ensures ok ==> ParseScion(old(packet)) == Some((scion, packet)) && cpuHdrLen == |scion.Bytes()|
      ensures !ok ==> ScionSoFar(old(packet)) == (scion, packet)
    {
      hide Scion.Bytes;
      hide Host.Bytes;
      hide ParseHost;
      hide HostSoFar;
      hide ReadScionCommon;
      hide ReadAddrCommon;
      ghost var x := packet;
      var b;
      ok, b := Extract(12);
      if !ok { return; }
      var common := ReadScionCommon(b);
      scion := scion.(common := Some(common));
      cpuHdrLen := 12;
      ok, b := Extract(16);
      if !ok { return; }
      assert b == x[12..28] && packet == x[28..];
      scion := scion.(addr := Some(ReadAddrCommon(b)));
      cpuHdrLen := cpuHdrLen + 16;
      var host;
      ok, host := ExtractHost(common.dl);
      scion := scion.(dst := host);
      if !ok { return; }
      ok, host := ExtractHost(common.sl);
      scion := scion.(src := host);
      if !ok { return; }
      cpuHdrLen := cpuHdrLen + StateBytes(common.dl, common.sl);
      ScionLength(scion);
    }

    /** States info_field_0, info_field_1, info_field_2. */
    method InfoStates(infos: nat) returns (ok: bool)
      requires 1 <= infos <= 3 && cpuHdrLen <= 1000 && path == NO_PATH.(meta := path.meta)
      modifies `packet, `path, `cpuHdrLen
      ensures ok == (|old(packet)| >= 8 * infos)
      ensures InfosSoFar(old(path.meta), infos, old(packet)) == (path, packet)
      ensures ok ==> packet == old(packet)[8 * infos..] && cpuHdrLen == old(cpuHdrLen) + 8 * infos
      ensures ok ==> path == Path(old(path.meta), Some(old(packet)[..8]),
                                  if infos >= 2 then Some(old(packet)[8..16]) else None,
                                  if infos == 3 then Some(old(packet)[16..24]) else None, None)
    {
      ghost var x := packet;
      var b;
      ok, b := Extract(8);
      if !ok { return; }
      path := path.(info0 := Some(b));
      if infos >= 2 {
        ok, b := Extract(8);
        if !ok { return; }
        assert b == x[8..16] && packet == x[16..];
        path := path.(info1 := Some(b));
      }
      if infos == 3 {
        ok, b := Extract(8);
        if !ok { return; }
        assert b == x[16..24] && packet == x[24..];
        path := path.(info2 := Some(b));
      }
      cpuHdrLen := cpuHdrLen + 8 * infos;
    }

    /** The info states followed by state hop_fields. */
    method InfoAndHopStates(infos: nat, hopBits: nat) returns (ok: bool)
      requires 1 <= infos <= 3 && hopBits % 8 == 0 && hopBits <= 20000 && cpuHdrLen <= 1000
      requires path == NO_PATH.(meta := path.meta)
      modifies `packet, `path, `cpuHdrLen
      ensures ok == ParseInfosAndHops(old(path.meta), infos, hopBits / 8, old(packet)).Some?
      ensures ok ==> ParseInfosAndHops(old(path.meta), infos, hopBits / 8, old(packet)) == Some((path, packet))
      ensures !ok && hopBits <= MAX_HOPS ==> InfosSoFar(old(path.meta), infos, old(packet)) == (path, packet)
      ensures ok ==> cpuHdrLen == old(cpuHdrLen) + 8 * infos + hopBits / 8 && path.meta == old(path.meta)
    {
      hide PathTail;
      hide RawOf;
      hide InfosSoFar;
      ghost var x, n, m := packet, 8 * infos, hopBits / 8;
      var b;
      ok := InfoStates(infos);
      if !ok { return; }
      ok := hopBits <= MAX_HOPS;
      if !ok { return; }
      ok, b := Extract(hopBits / 8);
      if !ok { return; }
      assert b == x[n..n + m] && packet == x[n + m..];
      path := path.(hops := Some(b));
      cpuHdrLen := cpuHdrLen + hopBits / 8;
    }

    /** ScionPathParser. */
    method PathStates(pathType: byte) returns (ok: bool)
      requires path == NO_PATH && cpuHdrLen <= 100
      modifies `packet, `path, `cpuHdrLen
      ensures ok == ParsePath(pathType, old(packet)).Some?
      ensures ok ==> ParsePath(pathType, old(packet)) == Some((path, packet))
      ensures !ok ==> PathSoFar(pathType, old(packet)) == (path, packet)
      ensures ok ==> cpuHdrLen == old(cpuHdrLen) + |path.Bytes()| && cpuHdrLen <= 2400
    {
      hide Path.Bytes;
      hide PathTail;
      hide PathShape;
      hide ReadPathMeta;
      hide ParseInfosAndHops;
      hide InfosSoFar;
      if pathType == PATH_SCION {
        var b;
        ok, b := Extract(4);
        if !ok { return; }
        var m := ReadPathMeta(b);
        path := path.(meta := Some(m));
        cpuHdrLen := cpuHdrLen + 4;
        var infos := if m.seg1Len == 0 && m.seg2Len == 0 then 1 else if m.seg2Len == 0 then 2 else 3;
        ok := InfoAndHopStates(infos, (m.seg2Len + m.seg1Len + m.seg0Len) * 96);
      } else if pathType == PATH_ONEHOP {
        ok := InfoAndHopStates(1, 192);
      } else {
        ok := false;
      }
      if ok {
        ParsePathSound(pathType, old(packet));
        PathLength(pathType, path);
      }
    }

    /** States udp_scion_state and int_shim, with the first two states of IntParser. */
    method InnerStates(nextHdr: byte) returns (ok: bool)
      requires inner == NO_INNER && cpuHdrLen <= 10000
      modifies `packet, `inner, `cpuHdrLen
      ensures ok == ParseInner(nextHdr, old(packet)).Some?
      ensures ok ==> ParseInner(nextHdr, old(packet)) == Some((inner, packet))
      ensures !ok ==> InnerSoFar(nextHdr, old(packet)) == (inner, packet)
      ensures cpuHdrLen == old(cpuHdrLen) + |inner.Bytes()|
    {
      hide ReadUdp;
      hide ReadIntShim;
      hide ReadIntMd;
      ok := true;
      if nextHdr != NEXT_UDP_SCION { return; }
      ghost var x := packet;
      var b;
      ok, b := Extract(8);
      if !ok { return; }
      var udp := ReadUdp(b);
      inner := Inner(Some(udp), None, None);
      cpuHdrLen := cpuHdrLen + 8;
      if udp.dstPort != INT_UDP_PORT { return; }
      ok, b := Extract(4);
      if !ok { return; }
      assert b == x[8..12] && packet == x[12..];
      var shim := ReadIntShim(b);
      inner := inner.(shim := Some(shim));
      cpuHdrLen := cpuHdrLen + 4;
      if shim.kind != TYPE_MD { return; }
      ok, b := Extract(12);
      if !ok { return; }
      assert b == x[12..24] && packet == x[24..];
      inner := inner.(md := Some(ReadIntMd(b)));
      cpuHdrLen := cpuHdrLen + 12;
    }

    /** State int_stack_state. */
    method StackState(length: byte) returns (ok: bool)
      requires stack == NO_STACK
      modifies `packet, `stack, `intStackLen
      ensures var n := StackBits(length) / 8;
        && ok == (StackBits(length) <= MAX_STACK && |old(packet)| >= n)
        && (ok ==> stack == NO_STACK.(pre := Some(old(packet)[..n])) && packet == old(packet)[n..])
        && (!ok ==> stack == NO_STACK && packet == old(packet))
        && intStackLen == StackBits(length)
    {
      WholeBytes(length);
      hide StackBits;
      var bits := StackBits(length);
      intStackLen := bits;
      ok := bits <= MAX_STACK;
      if !ok { return; }
      var b;
      ok, b := Extract(bits / 8);
      if ok {
        stack := stack.(pre := Some(b));
      }
    }

    /** State get_payload. */
    method PayloadState(payloadLen: u16) returns (ok: bool)
      modifies `packet, `payload
      ensures var bits := PayloadBits(payloadLen, intStackLen);
        && ok == (bits <= MAX_PAYLOAD && |old(packet)| >= bits / 8)
        && (ok ==> payload == Some(old(packet)[..bits / 8]) && packet == old(packet)[bits / 8..])
        && (!ok ==> payload == old(payload) && packet == old(packet))
    {
      hide PayloadBits;
      var bits := PayloadBits(payloadLen, intStackLen);
      ok := bits <= MAX_PAYLOAD;
      if !ok { return; }
      var b;
      ok, b := Extract(bits / 8);
      if ok {
        payload := Some(b);
      }
    }

    /** The states after the INT-MD header. An error leaves the bytes from the stack or from the payload on. */
    method StackStates(payloadLen: u16) returns (ok: bool)
      requires stack == NO_STACK && payload == None && intStackLen == 0
      modifies `packet, `stack, `payload, `intStackLen
      ensures ok == ParseStack(inner, payloadLen, old(packet)).Some?
      ensures ok ==> ParseStack(inner, payloadLen, old(packet)) == Some((stack, payload, packet))
      ensures StackReceived(Continues, inner, payloadLen, old(packet)) == Some((stack, payload, packet))
      ensures stack.pre.Some? || ok ==> intStackLen == 8 * |stack.Bytes()|
    {
      hide IntStack.Bytes;
      hide StackBits;
      hide PayloadBits;
      EmptyBytes();
      ok := true;
      if inner.md == None || inner.shim == None || inner.shim.value.length == 3 { return; }
      ghost var x := packet;
      WholeBytes(inner.shim.value.length);
      ok := StackState(inner.shim.value.length);
      if !ok { return; }
      PreOnly(stack);
      ok := PayloadState(payloadLen);
      if !ok { return; }
      ghost var n, m := intStackLen / 8, PayloadBits(payloadLen, intStackLen) / 8;
      assert payload.value == x[n..n + m] && packet == x[n + m..];
    }

    /** The whole parser accepts exactly what the grammar accepts, leaves at any error what the controls go on with, and
        has counted the bytes from scion_common through int_md, as far as they are there, when it found a shim. */
    method Run() returns (ok: bool)
      requires Hdr() == NO_HEADERS && cpuHdrLen == intStackLen == 0
      modifies this
      ensures ok == Parse(old(packet)).Some?
      ensures ok ==> Parse(old(packet)) == Some(Accepted(Hdr(), packet)) && Shape(Hdr())
      ensures Received(Continues, old(packet)) == Some(Accepted(Hdr(), packet)) && Extracted(Hdr())
      ensures Hdr().Deparse() + packet == old(packet)
      ensures ok || Hdr().inner.shim.Some? ==> cpuHdrLen == |Hdr().ScionToMd()|
      ensures ok || stack.pre.Some? ==> intStackLen == 8 * |Hdr().stack.Bytes()|
    {
      hide ParseBody;
      hide Shape;
      hide Extracted;
      hide Headers.Deparse;
      hide ParseOuter;
      hide OuterSoFar;
      hide IntStack.Bytes;
      EmptyBytes();
      ghost var x := packet;
      ok := OuterStates();
      if ok && outer.udp.Some? && outer.udp.value.dstPort == SCION_PORT {
        ok := BodyStates();
      }
      ReceivedThenDeparse(Continues, x);
      if ok {
        AcceptedIsReceived(Continues, x);
        ParseThenDeparse(x);
      }
    }

    /** States scion, path, udp_scion_state, int_shim and get_payload. */
    method BodyStates() returns (ok: bool)
      requires Hdr() == NO_HEADERS.(outer := outer) && cpuHdrLen == intStackLen == 0
      modifies this
      ensures outer == old(outer) && ok == ParseBody(Discards, outer, old(packet)).Some?
      ensures ParseBody(Continues, outer, old(packet)) == Some(Accepted(Hdr(), packet))
      ensures ok || inner.shim.Some? ==> cpuHdrLen == |Hdr().ScionToMd()|
      ensures ok || stack.pre.Some? ==> intStackLen == 8 * |stack.Bytes()|
    {
      hide ParseScion;
      hide ScionSoFar;
      hide ParsePath;
      hide PathSoFar;
      hide ParseInner;
      hide InnerSoFar;
      hide StackReceived;
      hide ParseStack;
      hide Scion.Bytes;
      hide Path.Bytes;
      hide Inner.Bytes;
      hide IntStack.Bytes;
      ok := ScionStates();
      if !ok { return; }
      ScionLength(scion);
      var common := scion.common.value;
      ok := PathStates(common.pathType);
      if !ok { return; }
      ok := InnerStates(common.nextHdr);
      if !ok { return; }
      ghost var y := packet;
      ok := StackStates(common.payloadLen);
      Discarding(inner, common.payloadLen, y);
    }
  }

  lemma Discarding(i: Inner, payloadLen: u16, x: seq<byte>)
    ensures StackReceived(Discards, i, payloadLen, x) == ParseStack(i, payloadLen, x)
  {
  }

  /** What the state selected for lengths (dl, sl) adds to cpuHdrLen: a constant in each of the 16 states. */
  function StateBytes(dl: u2, sl: u2): (n: nat)
    ensures n == 4 * (dl + 1) + 4 * (sl + 1)
  {
    [[8, 12, 16, 20], [12, 16, 20, 24], [16, 20, 24, 28], [20, 24, 28, 32]][dl][sl]
  }

  lemma WholeBytes(length: byte)
    ensures StackBits(length) % 8 == 0 && StackBits(length) < 0x1_0000_0000
  {
  }

  lemma EmptyBytes()
    ensures NO_SCION.Bytes() == [] && NO_PATH.Bytes() == [] && NO_INNER.Bytes() == [] && NO_STACK.Bytes() == []
  {
  }
}
