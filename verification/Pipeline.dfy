/** The switch as a whole: parser, controls, checksums and deparser on one packet from the wire, once for the packet
    itself and once for the clone made of it (V1Switch in int_switch.p4). */
module Pipeline {
  import opened Bits
  import opened Headers
  import opened Parser
  import opened ParserStates
  import opened IntSwitch

  /** None: nothing leaves on that side. The clone is parsed again from the ingress packet and keeps only cpuHdrLen. */
  method ProcessPacket(tg: Target, x: seq<byte>, t: Tables, std: Std, cloneStd: Std, csum: seq<byte> -> u16)
    returns (out: Option<seq<byte>>, toCpu: Option<seq<byte>>)
    ensures out == Output(tg, x, t, std, csum)
    ensures toCpu == ToCpu(tg, x, t, csum)
  {
    hide Received;
    hide Shape;
    hide Extracted;
    hide Emit;
    hide Forwarded;
    hide Cloned;
    hide Lookup;
    hide Headers.ScionToMd;
    var parser := new IntSwitchParser(x);
    var accepted := parser.Run();
    if !accepted && tg.Discards? { return None, None; }
    if accepted {
      AcceptedIsReceived(Continues, x);
    }
    var h, rest := parser.Hdr(), parser.packet;
    var forwarded, cloned := Process(h, t, std);
    out := Some(Emit(forwarded, rest, csum));
    toCpu := None;
    if cloned {
      var again := new IntSwitchParser(x);
      accepted := again.Run();
      var copy := ProcessClone(again.Hdr(), parser.cpuHdrLen, t, cloneStd);
      if copy.Some? {
        toCpu := Some(Emit(copy.value, again.packet, csum));
      }
    }
    NotCloned(h, parser.cpuHdrLen, t);
  }

  lemma NotCloned(h: Headers, cpuHdrLen: u64, t: Tables)
    ensures Lookup(h, t) != Some(CloneInt) || h.inner.shim.None? ==> Cloned(h, cpuHdrLen, t) == None
  {
    hide Lookup;
  }
}
