/** The length-prefixed report stream (tcpClient.cpp). The socket is the bytes it has taken; every write may break off
    after any number of bytes. */
module TcpClient {
  import opened Bits
  import opened Wire

  /** None: everything is written. Some(n): after n bytes the socket reports an error. */
  type Fault = Option<nat>

  datatype Client = Client(isActive: bool, bytes: seq<byte>)

  function Taken(data: seq<byte>, fault: Fault): (b: seq<byte>)
    ensures b <= data
  {
    if fault.None? || fault.value >= |data| then data else data[..fault.value]
  }

  function WriteTo(c: Client, data: seq<byte>, fault: Fault): Client {
    if !c.isActive then c else Client(fault.None?, c.bytes + Taken(data, fault))
  }

  /** A report as it is meant to appear on the stream: its 32-bit length, least significant byte first, and its
      bytes. */
  function Frame(report: seq<byte>): seq<byte> {
    Fixed(4, |report| % 0x1_0000_0000) + report
  }

  function SendTo(c: Client, report: seq<byte>, faults: (Fault, Fault)): Client {
    WriteTo(WriteTo(c, Fixed(4, |report| % 0x1_0000_0000), faults.0), report, faults.1)
  }

  class TcpClient {
    var isActive: bool
    var socket: seq<byte>

    function Value(): Client
      reads this
    {
      Client(isActive, socket)
    }

    constructor (connected: bool)
      ensures Value() == Client(connected, [])
    {
      isActive, socket := connected, [];
    }

    method Write(data: seq<byte>, fault: Fault) returns (active: bool)
      modifies this
      ensures Value() == WriteTo(old(Value()), data, fault) && active == isActive
    {
      if isActive {
        socket := socket + Taken(data, fault);
        if fault.Some? {
          isActive := false;
        }
      }
      active := isActive;
    }

    method Send(report: seq<byte>, faults: (Fault, Fault)) returns (active: bool)
      modifies this
      ensures Value() == SendTo(old(Value()), report, faults) && active == isActive
    {
      if isActive {
        var len := |report| % 0x1_0000_0000;
        var ok := Write(Fixed(4, len), faults.0);
        ok := Write(report, faults.1);
      }
      active := isActive;
    }
  }

  //////////////////////////////////////////////////////////////////////
  // Whole runs
  //////////////////////////////////////////////////////////////////////

  function SendAll(c: Client, reports: seq<seq<byte>>, faults: seq<(Fault, Fault)>): Client
    requires |faults| == |reports|
    decreases |reports|
  {
    if reports == [] then c else SendAll(SendTo(c, reports[0], faults[0]), reports[1..], faults[1..])
  }

  function Stream(reports: seq<seq<byte>>): seq<byte> {
    if reports == [] then [] else Frame(reports[0]) + Stream(reports[1..])
  }

  /** After the first error nothing more is written. */
  lemma {:induction false} FailStop(c: Client, reports: seq<seq<byte>>, faults: seq<(Fault, Fault)>)
    requires |faults| == |reports| && !c.isActive
    ensures SendAll(c, reports, faults) == c
    decreases |reports|
  {
    if reports != [] {
      FailStop(c, reports[1..], faults[1..]);
    }
  }

  predicate NoFault(faults: seq<(Fault, Fault)>) {
    forall i :: 0 <= i < |faults| ==> faults[i] == (None, None)
  }

  /** What is on the socket is always the beginning of the frames of the reports, and all of them if no write failed;
      the stream is still open exactly in that case. */
  lemma {:induction false} AlwaysAPrefix(c: Client, reports: seq<seq<byte>>, faults: seq<(Fault, Fault)>)
    requires |faults| == |reports| && c.isActive
    ensures var d := SendAll(c, reports, faults);
      && d.bytes <= c.bytes + Stream(reports)
      && (d.isActive <==> NoFault(faults))
      && (d.isActive ==> d.bytes == c.bytes + Stream(reports))
    decreases |reports|
  {
    hide Fixed;
    if reports != [] {
      var c1 := SendTo(c, reports[0], faults[0]);
      SendOne(c, reports[0], faults[0]);
      assert c.bytes + Stream(reports) == (c.bytes + Frame(reports[0])) + Stream(reports[1..]);
      Split(faults);
      if c1.isActive {
        AlwaysAPrefix(c1, reports[1..], faults[1..]);
      } else {
        FailStop(c1, reports[1..], faults[1..]);
      }
    }
  }

  lemma Split(faults: seq<(Fault, Fault)>)
    requires faults != []
    ensures NoFault(faults) <==> faults[0] == (None, None) && NoFault(faults[1..])
  {
    if NoFault(faults[1..]) && faults[0] == (None, None) {
      forall i | 0 <= i < |faults|
        ensures faults[i] == (None, None)
      {
        assert i > 0 ==> faults[i] == faults[1..][i - 1];
      }
    }
  }

  lemma SendOne(c: Client, report: seq<byte>, faults: (Fault, Fault))
    requires c.isActive
    ensures var d := SendTo(c, report, faults);
      && d.bytes <= c.bytes + Frame(report)
      && (d.isActive <==> faults == (None, None))
      && (d.isActive ==> d.bytes == c.bytes + Frame(report))
  {
    var n := Fixed(4, |report| % 0x1_0000_0000);
    hide Fixed;
    assert c.bytes + Frame(report) == c.bytes + n + report;
  }

  /** The complete frames at the beginning of a stream. */
  function Decode(b: seq<byte>): seq<seq<byte>>
    decreases |b|
  {
    var n := ReadFixed(4, b);
    if n.None? || |n.value.1| < n.value.0 then []
    else [n.value.1[..n.value.0]] + Decode(n.value.1[n.value.0..])
  }

  predicate Short(reports: seq<seq<byte>>) {
    forall i :: 0 <= i < |reports| ==> |reports[i]| < 0x1_0000_0000
  }

  lemma DecodeFrame(report: seq<byte>, rest: seq<byte>)
    requires |report| < 0x1_0000_0000
    ensures Decode(Frame(report) + rest) == [report] + Decode(rest)
  {
    Pow256Values();
    hide Fixed;
    hide ReadFixed;
    var n := |report|;
    assert Frame(report) + rest == Fixed(4, n) + (report + rest);
    ReadFixedOf(4, n, report + rest);
    assert (report + rest)[..n] == report && (report + rest)[n..] == rest;
  }

  /** A frame of which only a part is there decodes to nothing. */
  lemma DecodePartOfFrame(report: seq<byte>, b: seq<byte>)
    requires |report| < 0x1_0000_0000 && b < Frame(report)
    ensures Decode(b) == []
  {
    hide Fixed;
    hide ReadFixed;
    Pow256Values();
    if |b| >= 4 {
      assert b[..4] == Frame(report)[..4] == Fixed(4, |report|);
      assert b == Fixed(4, |report|) + b[4..];
      ReadFixedOf(4, |report|, b[4..]);
    } else {
      NoLength(b);
    }
  }

  lemma NoLength(b: seq<byte>)
    requires |b| < 4
    ensures Decode(b) == []
  {
  }

  /** Whatever part of a stream has arrived, its complete frames are the first of the reports that were sent. */
  lemma {:induction false} DecodesInOrder(reports: seq<seq<byte>>, b: seq<byte>)
    requires Short(reports) && b <= Stream(reports)
    ensures Decode(b) <= reports
    ensures b == Stream(reports) ==> Decode(b) == reports
  {
    if reports == [] {
      DecodeNothing();
    } else {
      var f, t := Frame(reports[0]), Stream(reports[1..]);
      assert Stream(reports) == f + t && |reports[0]| < 0x1_0000_0000;
      hide Stream;
      hide Decode;
      hide Frame;
      PrefixOfTwo(b, f, t);
      if |b| < |f| {
        DecodePartOfFrame(reports[0], b);
      } else {
        DecodeFrame(reports[0], b[|f|..]);
        DecodesInOrder(reports[1..], b[|f|..]);
        assert [reports[0]] + reports[1..] == reports;
      }
    }
  }

  /** The beginning of f + t ends inside f, or is f followed by the beginning of t. */
  lemma PrefixOfTwo(b: seq<byte>, f: seq<byte>, t: seq<byte>)
    requires b <= f + t
    ensures |b| < |f| ==> b < f
    ensures |b| >= |f| ==> b == f + b[|f|..] && b[|f|..] <= t && (b == f + t ==> b[|f|..] == t)
  {
    assert b == (f + t)[..|b|];
    if |b| < |f| {
      assert b == f[..|b|];
    } else {
      assert b[|f|..] == t[..|b| - |f|];
    }
  }

  /** End to end, over any run with any partial writes: the receiver decodes the first of the reports, in order, and
      all of them if no write failed. */
  lemma ReceiverSees(reports: seq<seq<byte>>, faults: seq<(Fault, Fault)>)
    requires |faults| == |reports| && Short(reports)
    ensures var d := SendAll(Client(true, []), reports, faults);
      Decode(d.bytes) <= reports && (NoFault(faults) ==> Decode(d.bytes) == reports)
  {
    AlwaysAPrefix(Client(true, []), reports, faults);
    var d := SendAll(Client(true, []), reports, faults);
    assert [] + Stream(reports) == Stream(reports);
    DecodesInOrder(reports, d.bytes);
  }

  /** A single report comes out as it went in if and only if its length fits the 32-bit prefix. */
  lemma LengthFits(report: seq<byte>)
    ensures Decode(Frame(report)) == [report] <==> |report| < 0x1_0000_0000
  {
    Pow256Values();
    hide Fixed;
    hide ReadFixed;
    if |report| < 0x1_0000_0000 {
      DecodeFrame(report, []);
      assert Frame(report) + [] == Frame(report);
      assert Decode([]) == [] by { DecodeNothing(); }
    } else {
      ReadFixedOf(4, |report| % 0x1_0000_0000, report);
      var n := ReadFixed(4, Frame(report));
      assert |Decode(Frame(report))[0]| == |report| % 0x1_0000_0000;
    }
  }

  lemma DecodeNothing()
    ensures Decode([]) == []
  {
  }
}
