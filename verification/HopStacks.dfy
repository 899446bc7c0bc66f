/** Stacks of many hops: what each node wrote is what the report says about it, in the order of the stack. */
module HopStacks {
  import opened Bits
  import opened Headers
  import opened IntSwitch
  import opened SourceSink
  import Report
  import Text
  import opened Decoder
  import opened CpuPacket
  import opened EndToEnd

  //////////////////////////////////////////////////////////////////////
  // Whatever the INT specification lets a node write
  //////////////////////////////////////////////////////////////////////

  /** What a node may have to say, for every bit the controller reads. */
  datatype Measurement = Measurement(nodeID: u32, level1: seq<byte>, latency: seq<byte>, queue: seq<byte>,
                                     ingress: u64, egress: u64, level2: seq<byte>, txUtil: seq<byte>,
                                     buffer: seq<byte>, asn: u64) {
    predicate Sized() {
      |level1| == |latency| == |queue| == |txUtil| == |buffer| == 4 && |level2| == 8
    }

    /** The fields asked for, in the order of the instruction bits, then the AS. */
    function Written(instr: u16, domain: u16): seq<byte> {
      (if Bit(instr, 15) then BytesOf(4, nodeID) else [])
      + ((if Bit(instr, 14) then level1 else [])
      + ((if Bit(instr, 13) then latency else [])
      + ((if Bit(instr, 12) then queue else [])
      + ((if Bit(instr, 11) then BytesOf(8, ingress) else [])
      + ((if Bit(instr, 10) then BytesOf(8, egress) else [])
      + ((if Bit(instr, 9) then level2 else [])
      + ((if Bit(instr, 8) then txUtil else [])
      + ((if Bit(instr, 7) then buffer else [])
      + (if Bit(domain, 0) then BytesOf(8, asn) else [])))))))))
    }

    /** The value of metadata type 1 to 8 in report.proto; times in nanoseconds, in 64 bits. */
    function Value(kind: nat): seq<byte> {
      match kind
      case 1 => level1
      case 2 => latency
      case 3 => queue
      case 4 => BytesOf(8, ingress * 1000 % 0x1_0000_0000_0000_0000)
      case 5 => BytesOf(8, egress * 1000 % 0x1_0000_0000_0000_0000)
      case 6 => level2
      case 7 => txUtil
      case _ => buffer
    }

    /** What a report should say. */
    function Told(instr: u16, domain: u16): Report.Hop {
      Report.Hop(if Bit(domain, 0) then asn else 0, if Bit(instr, 15) then nodeID else 0,
                 map k: u32 | 1 <= k <= 8 && Bit(instr, 15 - k) :: Value(k))
    }
  }

  /** The field of instruction bit b. */
  function FieldOf(m: Measurement, b: nat): seq<byte> {
    match b
    case 15 => BytesOf(4, m.nodeID)
    case 14 => m.level1
    case 13 => m.latency
    case 12 => m.queue
    case 11 => BytesOf(8, m.ingress)
    case 10 => BytesOf(8, m.egress)
    case 9 => m.level2
    case 8 => m.txUtil
    case _ => m.buffer
  }

  /** The fields from bit b down. */
  function From(m: Measurement, instr: u16, domain: u16, b: nat): seq<byte>
    requires 6 <= b <= 15
    decreases b
  {
    if b == 6 then (if Bit(domain, 0) then BytesOf(8, m.asn) else [])
    else (if Bit(instr, b) then FieldOf(m, b) else []) + From(m, instr, domain, b - 1)
  }

  lemma WrittenFrom(m: Measurement, instr: u16, domain: u16)
    ensures m.Written(instr, domain) == From(m, instr, domain, 15)
  {
    hide Bit;
    hide BytesOf;
    assert From(m, instr, domain, 7) == (if Bit(instr, 7) then m.buffer else []) + From(m, instr, domain, 6);
    assert From(m, instr, domain, 9) == (if Bit(instr, 9) then m.level2 else [])
                                        + ((if Bit(instr, 8) then m.txUtil else []) + From(m, instr, domain, 7));
    assert From(m, instr, domain, 11)
        == (if Bit(instr, 11) then BytesOf(8, m.ingress) else [])
           + ((if Bit(instr, 10) then BytesOf(8, m.egress) else []) + From(m, instr, domain, 9));
    assert From(m, instr, domain, 13) == (if Bit(instr, 13) then m.latency else [])
                                         + ((if Bit(instr, 12) then m.queue else []) + From(m, instr, domain, 11));
  }

  lemma FieldSize(m: Measurement, b: nat)
    requires m.Sized() && 7 <= b <= 15
    ensures |FieldOf(m, b)| == FieldWidth(b)
  {
  }

  lemma FieldStep(x: seq<byte>, pos: nat, m: Measurement, instr: u16, domain: u16, b: nat)
    requires m.Sized() && 7 <= b <= 15 && At(x, pos, From(m, instr, domain, b))
    ensures Bit(instr, b) ==> At(x, pos, FieldOf(m, b))
    ensures At(x, pos + Width(Bit(instr, b), FieldWidth(b)), From(m, instr, domain, b - 1))
    ensures |From(m, instr, domain, b)| == Width(Bit(instr, b), FieldWidth(b)) + |From(m, instr, domain, b - 1)|
  {
    hide Bit;
    hide FieldOf;
    hide FieldWidth;
    hide From;
    hide At;
    FieldSize(m, b);
    FromStep(m, instr, domain, b);
    var f, rest := if Bit(instr, b) then FieldOf(m, b) else [], From(m, instr, domain, b - 1);
    assert f + rest == [] + f + rest && f + rest == f + rest + [];
    PieceAt(x, pos, [], f, rest);
    PieceAt(x, pos, f, rest, []);
  }

  lemma FromStep(m: Measurement, instr: u16, domain: u16, b: nat)
    requires 7 <= b <= 15
    ensures From(m, instr, domain, b)
         == (if Bit(instr, b) then FieldOf(m, b) else []) + From(m, instr, domain, b - 1)
  {
    hide Bit;
    hide FieldOf;
  }

  predicate FieldsThere(x: seq<byte>, at: nat, m: Measurement, instr: u16, b: nat) {
    forall c | 7 <= c <= b && Bit(instr, c) :: At(x, at + Before(instr, c), FieldOf(m, c))
  }

  /** Field by field, what was written is where the decoder looks. */
  lemma {:induction false} FieldsAt(x: seq<byte>, at: nat, m: Measurement, instr: u16, domain: u16, b: nat)
    requires m.Sized() && 6 <= b <= 15 && At(x, at + Before(instr, b), From(m, instr, domain, b))
    ensures FieldsThere(x, at, m, instr, b)
    ensures At(x, at + Before(instr, 6), From(m, instr, domain, 6))
    ensures |From(m, instr, domain, b)| + Before(instr, b) == |From(m, instr, domain, 6)| + Before(instr, 6)
    decreases b
  {
    hide Bit;
    hide Before;
    hide FieldOf;
    hide FieldWidth;
    hide From;
    hide At;
    if b > 6 {
      FieldStep(x, at + Before(instr, b), m, instr, domain, b);
      OffsetStep(instr, b, FieldWidth(b));
      FieldsAt(x, at, m, instr, domain, b - 1);
    }
  }

  /** One hop: what a node wrote is decoded to what it measured, for every bitmap. */
  lemma MeasuredHop(x: seq<byte>, at: nat, m: Measurement, instr: u16, domain: u16)
    requires m.Sized() && At(x, at, m.Written(instr, domain))
    ensures |m.Written(instr, domain)| == HopWidth(instr, domain) && at + HopWidth(instr, domain) <= |x|
    ensures HopAt(x, at, instr, domain) == m.Told(instr, domain)
  {
    hide Bit;
    hide BytesOf;
    hide HopWidth;
    hide HopAt;
    hide Measurement.Told;
    WrittenFrom(m, instr, domain);
    hide Measurement.Written;
    assert Before(instr, 15) == 0;
    hide Before;
    FieldsAt(x, at, m, instr, domain, 15);
    DomainWidth(instr, domain);
    assert |From(m, instr, domain, 6)| == Width(Bit(domain, 0), 8);
    hide From;
    hide FieldOf;
    hide FieldsThere;
    WholeInside(x, at, |m.Written(instr, domain)|, m.Written(instr, domain));
    hide At;
    FieldsTold(x, at, m, instr, domain);
  }

  lemma WholeInside(x: seq<byte>, at: nat, n: nat, b: seq<byte>)
    requires At(x, at, b) && |b| == n
    ensures at + n <= |x|
  {
  }

  lemma FieldsTold(x: seq<byte>, at: nat, m: Measurement, instr: u16, domain: u16)
    requires m.Sized() && at + HopWidth(instr, domain) <= |x|
    requires FieldsThere(x, at, m, instr, 15)
    requires At(x, at + Before(instr, 6), From(m, instr, domain, 6))
    ensures HopAt(x, at, instr, domain) == m.Told(instr, domain)
  {
    hide Bit;
    hide Before;
    hide BytesOf;
    hide HopWidth;
    hide At;
    hide FieldOf;
    hide From;
    hide HopAt;
    hide MetaUpTo;
    hide Measurement.Value;
    BeforeInside(instr, domain);
    EndFields(x, at, m, instr, domain);
    ScalarsDecode(x, at, instr, domain, m.nodeID, m.asn);
    MetaTold(x, at, m, instr, domain);
  }

  lemma EndFields(x: seq<byte>, at: nat, m: Measurement, instr: u16, domain: u16)
    requires at <= |x| && (Bit(instr, 15) ==> At(x, at + Before(instr, 15), FieldOf(m, 15)))
    requires At(x, at + Before(instr, 6), From(m, instr, domain, 6))
    ensures At(x, at, Field(Bit(instr, 15), 4, m.nodeID))
    ensures At(x, at + Before(instr, 6), Field(Bit(domain, 0), 8, m.asn))
  {
    hide Bit;
    hide BytesOf;
    assert Before(instr, 15) == 0;
    hide Before;
    hide At;
    if !Bit(instr, 15) {
      NothingAt(x, at);
    }
  }

  lemma NothingAt(x: seq<byte>, at: nat)
    requires at <= |x|
    ensures At(x, at, [])
  {
  }

  lemma MetaTold(x: seq<byte>, at: nat, m: Measurement, instr: u16, domain: u16)
    requires m.Sized() && at + Before(instr, 6) <= |x|
    requires FieldsThere(x, at, m, instr, 15)
    ensures MetaUpTo(x, at, instr, 8) == m.Told(instr, domain).metadata
  {
    MetaInside(x, at, instr, 8);
    hide Bit;
    hide Before;
    hide BytesOf;
    hide FieldOf;
    hide At;
    hide Measurement.Value;
    hide MetaBytes;
    forall k: u32 | 1 <= k <= 8 && Bit(instr, 15 - k)
      ensures MetaBytes(x, at, instr, k) == m.Value(k)
    {
      EntryDecodes(x, at, m, instr, k);
    }
  }

  lemma EntryDecodes(x: seq<byte>, at: nat, m: Measurement, instr: u16, kind: nat)
    requires m.Sized() && 1 <= kind <= 8
    requires Bit(instr, 15 - kind) && At(x, at + Before(instr, 15 - kind), FieldOf(m, 15 - kind))
    ensures at + Before(instr, 15 - kind) + FieldWidth(15 - kind) <= |x|
    ensures MetaBytes(x, at, instr, kind) == m.Value(kind)
  {
    Pow256Values();
    hide Before;
    hide Bit;
    hide BytesOf;
    hide Pow256;
    hide Take;
    var pos := at + Before(instr, 15 - kind);
    if kind == 4 {
      TakeAt(x, pos, 8, m.ingress);
    } else if kind == 5 {
      TakeAt(x, pos, 8, m.egress);
    }
  }

  //////////////////////////////////////////////////////////////////////
  // Many hops
  //////////////////////////////////////////////////////////////////////

  function Concat(parts: seq<seq<byte>>): seq<byte> {
    if parts == [] then [] else parts[0] + Concat(parts[1..])
  }

  /** Part i of equally long parts is i widths behind the beginning. */
  lemma {:induction false} PartAt(x: seq<byte>, at: nat, parts: seq<seq<byte>>, rest: seq<byte>, width: nat, i: nat)
    requires at <= |x| && x[at..] == Concat(parts) + rest && i < |parts|
    requires forall j :: 0 <= j < |parts| ==> |parts[j]| == width
    ensures At(x, at + i * width, parts[i])
    decreases i
  {
    var first, tail := parts[0], Concat(parts[1..]) + rest;
    assert x[at..] == first + tail;
    assert x[at..][..|first|] == first && x[at..][|first|..] == tail;
    if i == 0 {
      assert x[at..at + |first|] == x[at..][..|first|];
    } else {
      assert x[at + width..] == x[at..][width..];
      PartAt(x, at + width, parts[1..], rest, width, i - 1);
      assert width + (i - 1) * width == i * width;
    }
  }

  lemma {:induction false} ConcatSize(parts: seq<seq<byte>>, width: nat)
    requires forall j :: 0 <= j < |parts| ==> |parts[j]| == width
    ensures |Concat(parts)| == |parts| * width
  {
    if parts != [] {
      ConcatSize(parts[1..], width);
      assert |parts| * width == width + (|parts| - 1) * width;
    }
  }

  /** The stack behind the headers of a CPU copy announces n hops and holds these parts. */
  predicate Holds(x: seq<byte>, v: CpuView, parts: seq<seq<byte>>, rest: seq<byte>) {
    && v.Describes(x) && v.md.hopML > 0 && v.shim.length == 3 + |parts| * v.md.hopML
    && x[v.end..] == Concat(parts) + rest
  }

  /** The report lists the given hops, one per part, in the order of the stack. */
  predicate Lists(o: Outcome, hops: seq<Report.Hop>) {
    o.Reported? && o.report.hops == hops
  }

  /** Offset at holds the bytes of that hop. */
  predicate HopIs(y: seq<byte>, at: int, instr: u16, domain: u16, hop: Report.Hop) {
    0 <= at && at + HopWidth(instr, domain) <= |y| && HopAt(y, at, instr, domain) == hop
  }

  /** The bytes of those hops, one behind the other. */
  predicate HopsThere(y: seq<byte>, at: nat, instr: u16, domain: u16, hops: seq<Report.Hop>) {
    && at + |hops| * HopWidth(instr, domain) <= |y|
    && forall i | 0 <= i < |hops| :: HopIs(y, at + i * HopWidth(instr, domain), instr, domain, hops[i])
  }

  lemma PartIsAt(x: seq<byte>, at: nat, parts: seq<seq<byte>>, rest: seq<byte>, width: nat, i: nat)
    requires at <= |x| && x[at..] == Concat(parts) + rest && i < |parts|
    requires forall j :: 0 <= j < |parts| ==> |parts[j]| == width
    ensures at + i * width >= 0 && At(CStr(x), at + i * width, parts[i])
  {
    hide At;
    hide Concat;
    assert i * width >= 0;
    PartAt(x, at, parts, rest, width, i);
    AtCStr(x, at + i * width, parts[i]);
  }

  lemma PartsInside(x: seq<byte>, at: nat, parts: seq<seq<byte>>, rest: seq<byte>, width: nat)
    requires at <= |x| && x[at..] == Concat(parts) + rest
    requires forall j :: 0 <= j < |parts| ==> |parts[j]| == width
    ensures at + |parts| * width <= |x|
  {
    ConcatSize(parts, width);
    assert |x[at..]| == |parts| * width + |rest|;
  }

  lemma HopsListed(y: seq<byte>, at: nat, instr: u16, domain: u16, hops: seq<Report.Hop>)
    requires HopsThere(y, at, instr, domain, hops)
    ensures at + |hops| * HopWidth(instr, domain) <= |y| && HopsAt(y, at, |hops|, instr, domain) == hops
  {
    hide HopWidth;
    hide HopAt;
  }

  lemma PartsDecode(x: seq<byte>, v: CpuView, hops: seq<Report.Hop>, sinkNode: u32)
    requires v.Describes(x) && v.md.hopML > 0 && v.shim.length == 3 + |hops| * v.md.hopML
    requires HopsThere(CStr(x), v.end, v.md.instructionBitmap, v.md.domainInstructions, hops)
    ensures Lists(Decoded(x, sinkNode), hops)
  {
    hide HopWidth;
    hide HopAt;
    hide HopsThere;
    hide HopsAt;
    hide Decoded;
    hide CpuView.Describes;
    hide Text.TopicName;
    hide Text.PackAddress;
    var instr, domain := v.md.instructionBitmap, v.md.domainInstructions;
    Quotient(|hops|, v.md.hopML);
    HopsListed(CStr(x), v.end, instr, domain, hops);
    CpuCopyDecodes(x, v, sinkNode);
  }

  lemma Quotient(n: nat, k: nat)
    requires k > 0
    ensures n * k % k == 0 && n * k / k == n
  {
    DivModUnique(n, k, 0);
  }

  /** What the nodes wrote, node by node. */
  function AllWritten(ms: seq<Measurement>, instr: u16, domain: u16): (parts: seq<seq<byte>>)
    ensures |parts| == |ms| && forall i | 0 <= i < |ms| :: parts[i] == ms[i].Written(instr, domain)
  {
    seq(|ms|, i requires 0 <= i < |ms| => ms[i].Written(instr, domain))
  }

  function AllTold(ms: seq<Measurement>, instr: u16, domain: u16): (hops: seq<Report.Hop>)
    ensures |hops| == |ms| && forall i | 0 <= i < |ms| :: hops[i] == ms[i].Told(instr, domain)
  {
    seq(|ms|, i requires 0 <= i < |ms| => ms[i].Told(instr, domain))
  }

  lemma AllMeasured(x: seq<byte>, at: nat, ms: seq<Measurement>, instr: u16, domain: u16, rest: seq<byte>)
    requires at <= |x| && x[at..] == Concat(AllWritten(ms, instr, domain)) + rest
    requires forall i | 0 <= i < |ms| :: ms[i].Sized()
    ensures HopsThere(CStr(x), at, instr, domain, AllTold(ms, instr, domain))
  {
    hide Measurement.Written;
    hide Measurement.Told;
    hide HopWidth;
    hide Concat;
    hide At;
    hide HopIs;
    var parts, width := AllWritten(ms, instr, domain), HopWidth(instr, domain);
    forall i | 0 <= i < |ms|
      ensures |parts[i]| == width
    {
      WholeAt(parts[i]);
      MeasuredHop(parts[i], 0, ms[i], instr, domain);
    }
    PartsInside(x, at, parts, rest, width);
    forall i | 0 <= i < |ms|
      ensures HopIs(CStr(x), at + i * width, instr, domain, ms[i].Told(instr, domain))
    {
      PartIsAt(x, at, parts, rest, width, i);
      MeasuredIs(CStr(x), at + i * width, ms[i], instr, domain);
    }
  }

  /** Whatever bitmaps are announced and however many nodes have written: hop i of the report says what node i wrote
      into place i of the stack, and there are no others. */
  lemma StackTold(x: seq<byte>, v: CpuView, ms: seq<Measurement>, rest: seq<byte>, sinkNode: u32)
    requires forall i | 0 <= i < |ms| :: ms[i].Sized()
    requires Holds(x, v, AllWritten(ms, v.md.instructionBitmap, v.md.domainInstructions), rest)
    ensures var o := Decoded(x, sinkNode);
      && o.Reported? && |o.report.hops| == |ms|
      && forall i | 0 <= i < |ms| ::
           o.report.hops[i] == ms[i].Told(v.md.instructionBitmap, v.md.domainInstructions)
  {
    hide Measurement.Told;
    hide AllWritten;
    hide Concat;
    hide Decoded;
    hide HopsThere;
    DescribesEnd(x, v);
    hide CpuView.Describes;
    AllMeasured(x, v.end, ms, v.md.instructionBitmap, v.md.domainInstructions, rest);
    PartsDecode(x, v, AllTold(ms, v.md.instructionBitmap, v.md.domainInstructions), sinkNode);
  }

  lemma MeasuredIs(y: seq<byte>, at: nat, m: Measurement, instr: u16, domain: u16)
    requires m.Sized() && At(y, at, m.Written(instr, domain))
    ensures HopIs(y, at, instr, domain, m.Told(instr, domain))
  {
    hide HopAt;
    hide HopWidth;
    MeasuredHop(y, at, m, instr, domain);
  }

  lemma DescribesEnd(x: seq<byte>, v: CpuView)
    requires v.Describes(x)
    ensures v.end <= |x|
  {
  }

  lemma WholeAt(b: seq<byte>)
    ensures At(b, 0, b)
  {
    assert b[0..0 + |b|] == b;
  }

  /** A switch that measures: its tables, the packet's times and ports there, its node id and AS. */
  datatype Source = Source(t: Tables, std: Std, nodeID: u32, asn: u64) {
    ghost predicate Valid() {
      FlagTables(t, nodeID, asn)
    }

    function Stack(instr: u16, domain: u16): seq<byte> {
      Hop(instr, domain, t, std).Bytes()
    }

    ghost function Tells(instr: u16, domain: u16): Report.Hop
      requires Valid()
    {
      Telemetry(instr, domain, std, nodeID, asn, t.txUtil[(1, std.egressPort)])
    }
  }

  function AllStacks(sources: seq<Source>, instr: u16, domain: u16): (parts: seq<seq<byte>>)
    ensures |parts| == |sources| && forall i | 0 <= i < |sources| :: parts[i] == sources[i].Stack(instr, domain)
  {
    seq(|sources|, i requires 0 <= i < |sources| => sources[i].Stack(instr, domain))
  }

  ghost function AllTelemetry(sources: seq<Source>, instr: u16, domain: u16): (hops: seq<Report.Hop>)
    requires forall i | 0 <= i < |sources| :: sources[i].Valid()
    ensures |hops| == |sources|
    ensures forall i | 0 <= i < |sources| :: hops[i] == sources[i].Tells(instr, domain)
  {
    seq(|sources|, i requires 0 <= i < |sources| => sources[i].Tells(instr, domain))
  }

  lemma AllSources(x: seq<byte>, at: nat, sources: seq<Source>, instr: u16, domain: u16, rest: seq<byte>)
    requires at <= |x| && x[at..] == Concat(AllStacks(sources, instr, domain)) + rest
    requires Supported(instr) && forall i | 0 <= i < |sources| :: sources[i].Valid()
    ensures HopsThere(CStr(x), at, instr, domain, AllTelemetry(sources, instr, domain))
  {
    hide Source.Stack;
    hide Source.Valid;
    hide Source.Tells;
    hide Supported;
    hide HopWidth;
    hide Concat;
    hide At;
    hide HopIs;
    var parts, width := AllStacks(sources, instr, domain), HopWidth(instr, domain);
    forall i | 0 <= i < |sources|
      ensures |parts[i]| == width
    {
      StackSizeOf(instr, domain, sources[i]);
    }
    PartsInside(x, at, parts, rest, width);
    forall i | 0 <= i < |sources|
      ensures HopIs(CStr(x), at + i * width, instr, domain, sources[i].Tells(instr, domain))
    {
      PartIsAt(x, at, parts, rest, width, i);
      SourceIs(CStr(x), at + i * width, sources[i], instr, domain);
    }
  }

  /** The stacks of n switches of this program, one behind the other: hop i of the report is what switch i
      measured. */
  lemma SourcesTold(x: seq<byte>, v: CpuView, sources: seq<Source>, rest: seq<byte>, sinkNode: u32)
    requires Supported(v.md.instructionBitmap) && forall i | 0 <= i < |sources| :: sources[i].Valid()
    requires Holds(x, v, AllStacks(sources, v.md.instructionBitmap, v.md.domainInstructions), rest)
    ensures var o := Decoded(x, sinkNode);
      && o.Reported? && |o.report.hops| == |sources|
      && forall i | 0 <= i < |sources| ::
           o.report.hops[i] == sources[i].Tells(v.md.instructionBitmap, v.md.domainInstructions)
  {
    hide Source.Valid;
    hide Source.Tells;
    hide AllStacks;
    hide Concat;
    hide Decoded;
    hide Supported;
    hide HopsThere;
    DescribesEnd(x, v);
    hide CpuView.Describes;
    AllSources(x, v.end, sources, v.md.instructionBitmap, v.md.domainInstructions, rest);
    PartsDecode(x, v, AllTelemetry(sources, v.md.instructionBitmap, v.md.domainInstructions), sinkNode);
  }

  lemma StackSizeOf(instr: u16, domain: u16, s: Source)
    requires s.Valid() && Supported(instr)
    ensures |s.Stack(instr, domain)| == HopWidth(instr, domain)
  {
    HopSizesAgree(instr, domain, s.t, s.std, s.nodeID, s.asn);
    NoPre(instr, domain, s.t, s.std);
    HopSize(Hop(instr, domain, s.t, s.std));
  }

  lemma SourceIs(y: seq<byte>, at: nat, s: Source, instr: u16, domain: u16)
    requires s.Valid() && Supported(instr) && At(y, at, s.Stack(instr, domain))
    ensures HopIs(y, at, instr, domain, s.Tells(instr, domain))
  {
    hide HopAt;
    hide HopWidth;
    HopTelemetry(y, at, instr, domain, s.t, s.std, s.nodeID, s.asn);
  }

  lemma NoPre(instr: u16, domain: u16, t: Tables, std: Std)
    ensures Hop(instr, domain, t, std).pre == None
  {
  }
}
