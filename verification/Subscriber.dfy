/** From the stream of messages at the controller to the reports at the receiver of the TCP stream. */
module Subscriber {
  import opened Bits
  import opened ControlPlane
  import ProtoFields
  import Report
  import ReportProofs
  import TcpClient
  import Wire

  /** The reports as they are sent: each serialized with some order of its map entries. */
  ghost predicate Serialized(published: seq<Published>, orders: seq<seq<seq<u32>>>, sent: seq<seq<byte>>) {
    && |published| == |orders| == |sent|
    && forall i :: 0 <= i < |sent| ==> SerializedAs(published[i].report, orders[i], sent[i])
  }

  ghost predicate SerializedAs(r: Report.Report, order: seq<seq<u32>>, b: seq<byte>) {
    Report.Orders(r.hops, order) && b == Report.SerReport(r, order) && |b| <= Wire.MAX_SIZE
  }

  /** Over any stream of messages and any faults of the socket, what the receiver parses are the first of the reports
      for the decoded packets, in order; and all of them if no write fails. */
  lemma SubscriberSees(p: Plane, ms: seq<StreamMessage>, cfg: Config, orders: seq<seq<seq<u32>>>, sent: seq<seq<byte>>,
                       faults: seq<(TcpClient.Fault, TcpClient.Fault)>)
    requires p.published == [] && HandleAll(p, ms, cfg).Some?
    requires Serialized(HandleAll(p, ms, cfg).value.published, orders, sent) && |faults| == |sent|
    ensures var published := Reports(ms, cfg.nodeID);
      var got := TcpClient.Decode(TcpClient.SendAll(TcpClient.Client(true, []), sent, faults).bytes);
      && |got| <= |published|
      && (forall i :: 0 <= i < |got| ==> Report.ParseReport(Report.NO_REPORT, got[i]) == Some(published[i].report))
      && (TcpClient.NoFault(faults) ==> |got| == |published|)
  {
    hide HandleAll;
    hide Reports;
    hide SerializedAs;
    hide TcpClient.Decode;
    hide TcpClient.SendAll;
    hide Report.ParseReport;
    PublishesInOrder(p, ms, cfg);
    var published := Reports(ms, cfg.nodeID);
    assert [] + published == published;
    forall i | 0 <= i < |sent|
      ensures |sent[i]| < 0x1_0000_0000
      ensures Report.ParseReport(Report.NO_REPORT, sent[i]) == Some(published[i].report)
    {
      OneReport(published[i].report, orders[i], sent[i]);
    }
    TcpClient.ReceiverSees(sent, faults);
  }

  /** A report goes over the stream behind its length as 32 bits, least significant byte first. */
  lemma FrameLayout(report: seq<byte>)
    requires |report| < 0x1_0000_0000
    ensures var f := TcpClient.Frame(report);
      && |f| == 4 + |report| && f[4..] == report
      && f[0] == |report| % 256 && f[1] == |report| / 0x100 % 256
      && f[2] == |report| / 0x1_0000 % 256 && f[3] == |report| / 0x100_0000 % 256
  {
    var n := |report|;
    Pow256Values();
    assert Pow256(0) == 1;
    ProtoFields.FixedLittleEndian(4, n, 0);
    ProtoFields.FixedLittleEndian(4, n, 1);
    ProtoFields.FixedLittleEndian(4, n, 2);
    ProtoFields.FixedLittleEndian(4, n, 3);
    hide Wire.Fixed;
    hide Pow256;
  }

  lemma OneReport(r: Report.Report, order: seq<seq<u32>>, b: seq<byte>)
    requires SerializedAs(r, order, b)
    ensures |b| < 0x1_0000_0000 && Report.ParseReport(Report.NO_REPORT, b) == Some(r)
  {
    ReportProofs.ReportRoundTrip(r, order);
  }
}
