/** From two configuration files to the report: an INT source and an INT sink, each configured by its controller. */
module Network {
  import opened Bits
  import opened Headers
  import opened Parser
  import opened IntSwitch
  import opened SourceSink
  import opened Decoder
  import opened EndToEnd
  import opened IntTables

  /** A switch: its configuration file, its own ISD and AS, and its node id. */
  datatype Node = Node(lines: seq<Line>, isd: u16, asn: u48, nodeID: u32) {
    predicate Valid() {
      ValidLines(lines) && RowsOf(lines).Some?
    }

    /** Its tables, of the given size, after a won election. */
    function Tables(size: nat): Tables
      requires Valid()
    {
      Installed(RowsOf(lines).value, isd, asn, nodeID, size)
    }
  }

  lemma {:induction false} NoUtilisationYet(n: nat, size: nat, p: u9)
    requires n <= 512 && (1, p) in Utilisations(map[], n, size)
    ensures Utilisations(map[], n, size)[(1, p)] == 0
  {
    if n > 0 && (1, p) in Utilisations(map[], n - 1, size) {
      NoUtilisationYet(n - 1, size, p);
    }
  }

  /** The packet is for the sink's AS, which is not the source's, and the source's file lists that AS first with the
      given bitmaps and early enough for the table. */
  predicate Configured(h: Headers, source: Node, sink: Node, instr: u16, domain: u16, size: nat)
    requires source.Valid()
  {
    && h.scion.addr.Some?
    && (h.scion.addr.value.dstISD, h.scion.addr.value.dstAS) == (sink.isd, sink.asn) != (source.isd, source.asn)
    && FirstLine(source.lines, (sink.isd, sink.asn)) == Some(InsertInt(instr, domain))
    && |Ahead(source.lines, (source.isd, source.asn), (sink.isd, sink.asn))| < size
  }

  lemma {:induction false} NothingAheadOfHost(lines: seq<Line>, host: (u16, u48))
    requires ValidLines(lines)
    ensures host in Seen(lines, host) && Ahead(lines, host, host) == {}
  {
    if lines != [] {
      NothingAheadOfHost(lines[..|lines| - 1], host);
    }
  }

  lemma ConfiguredTables(h: Headers, source: Node, sink: Node, instr: u16, domain: u16, size: nat, port: u9)
    requires source.Valid() && sink.Valid()
    requires PlainUdp(h) && Configured(h, source, sink, instr, domain, size) && size >= 512
    ensures Lookup(h, source.Tables(size)) == Some(InsertInt(instr, domain))
    ensures Lookup(h, sink.Tables(size)) == Some(CloneInt)
    ensures FlagTables(source.Tables(size), source.nodeID, source.asn)
    ensures (1, port) in source.Tables(size).txUtil && source.Tables(size).txUtil[(1, port)] == 0
  {
    PlainUdpHasNoInt(h);
    hide FirstLine;
    hide RowsOf;
    hide ValidLines;
    hide InstallRows;
    hide Lookup;
    hide Shape;
    hide Ahead;
    NothingAheadOfHost(sink.lines, (sink.isd, sink.asn));
    InstalledTables(source.lines, source.isd, source.asn, source.nodeID, size, h);
    InstalledTables(sink.lines, sink.isd, sink.asn, sink.nodeID, size, h);
    NoUtilisationYet(512, size, port);
  }

  /** With both switches configured by their controllers, the report tells the subscriber of the sink's topic what the
      source measured, if and only if the listed bitmaps are supported and write some field. */
  lemma ConfiguredTelemetry(tg: Target, x: seq<byte>, source: Node, sink: Node, instr: u16, domain: u16, size: nat,
                            std: Std, csum: seq<byte> -> u16)
    requires Received(tg, x).Some? && PlainUdp(Received(tg, x).value.hdr)
    requires source.Valid() && sink.Valid()
    requires Configured(Received(tg, x).value.hdr, source, sink, instr, domain, size) && size >= 512
    requires Usable(tg, Received(tg, x).value.hdr.scion.common.value.payloadLen,
                    Hop(instr, domain, source.Tables(size), std), Received(tg, x).value.rest)
    ensures var h := Received(tg, x).value.hdr;
      var y := Output(tg, x, source.Tables(size), std, csum);
      && y.Some? && ToCpu(tg, y.value, sink.Tables(size), csum).Some?
      && (ReportsHop(Decoded(ToCpu(tg, y.value, sink.Tables(size), csum).value, sink.nodeID),
                     h.scion.common.value.flowID, Telemetry(instr, domain, std, source.nodeID, source.asn, 0),
                     TopicOf(h.scion.addr.value, sink.nodeID))
          <==> Supported(instr) && Words(Hop(instr, domain, source.Tables(size), std)) > 0)
  {
    hide Received;
    hide PlainUdp;
    hide Configured;
    hide FlagTables;
    hide Lookup;
    hide Output;
    hide ToCpu;
    hide Hop;
    hide Words;
    hide Supported;
    hide Telemetry;
    hide TopicOf;
    hide Decoded;
    hide ReportsHop;
    hide Usable;
    hide Node.Tables;
    hide Node.Valid;
    ConfiguredTables(Received(tg, x).value.hdr, source, sink, instr, domain, size, std.egressPort);
    assert Received(tg, x).value.hdr.scion.addr.Some? by { HasAddress(Received(tg, x).value.hdr); }
    EndToEndTelemetry(tg, x, source.Tables(size), sink.Tables(size), std, csum, instr, domain, source.nodeID,
                      source.asn, sink.nodeID);
  }

  lemma HasAddress(h: Headers)
    requires PlainUdp(h)
    ensures h.scion.addr.Some? && h.scion.common.Some?
  {
    PlainUdpHasNoInt(h);
  }
}
