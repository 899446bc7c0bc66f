/** IntController::handlePacketIn: the CPU copy decoded into a telemetry report. */
module Decoder {
  import opened Bits
  import opened Report
  import opened Text

  const INT_IDENTIFIER: nat := 0x494e54
  const PACKET_TYPE_SCION := 4

  /** Undefined: the C++ code divides by zero or reads past the payload and its terminating zero. */
  datatype Outcome =
    | NotHandled
    | Undefined
    | Reported(key: FlowKey, report: Report, topic: string)

  //////////////////////////////////////////////////////////////////////
  // Where each field of a hop is
  //////////////////////////////////////////////////////////////////////

  /** Bytes of the field for instruction bit b, as the decoder reads it. */
  function FieldWidth(b: nat): nat {
    if 9 <= b <= 11 then 8 else 4
  }

  /** Bytes of the fields for the set bits above b. */
  function Before(bitmap: u16, b: nat): nat
    decreases 15 - b
  {
    if b >= 15 then 0 else Before(bitmap, b + 1) + if Bit(bitmap, b + 1) then FieldWidth(b + 1) else 0
  }

  /** Bytes of one hop: instruction bits 15 down to 7, then the AS address. */
  function HopWidth(bitmap: u16, domain: u16): nat {
    Before(bitmap, 6) + if Bit(domain, 0) then 8 else 0
  }

  /** The metadata types 1 to 8 of report.proto stand for the instruction bits 14 down to 7. */
  function MetaBytes(payload: seq<byte>, at: nat, bitmap: u16, kind: nat): seq<byte>
    requires 1 <= kind <= 8
    requires at + Before(bitmap, 15 - kind) + FieldWidth(15 - kind) <= |payload|
  {
    var pos := at + Before(bitmap, 15 - kind);
    if kind == 4 || kind == 5 then BytesOf(8, Take(8, payload, pos) * 1000 % 0x1_0000_0000_0000_0000)
    else payload[pos..pos + FieldWidth(15 - kind)]
  }

  lemma BeforeStep(bitmap: u16, b: nat)
    requires b < 15
    ensures Before(bitmap, b) == Before(bitmap, b + 1) + if Bit(bitmap, b + 1) then FieldWidth(b + 1) else 0
  {
  }

  lemma {:induction false} BeforeMonotone(bitmap: u16, lo: nat, hi: nat)
    requires lo <= hi
    ensures Before(bitmap, hi) <= Before(bitmap, lo)
    ensures lo < hi <= 15 && Bit(bitmap, hi) ==> Before(bitmap, hi) + FieldWidth(hi) <= Before(bitmap, lo)
    decreases hi - lo
  {
    if lo < hi {
      BeforeMonotone(bitmap, lo + 1, hi);
    }
  }

  /** The metadata of types 1 to k, of the hop whose bytes start at offset at. */
  function MetaUpTo(payload: seq<byte>, at: nat, bitmap: u16, k: nat): map<u32, seq<byte>>
    requires k <= 8 && at + Before(bitmap, 14 - k) <= |payload|
  {
    MetaInside(payload, at, bitmap, k);
    map i: u32 | 1 <= i <= k && Bit(bitmap, 15 - i) :: MetaBytes(payload, at, bitmap, i)
  }

  lemma MetaInside(payload: seq<byte>, at: nat, bitmap: u16, k: nat)
    requires k <= 8 && at + Before(bitmap, 14 - k) <= |payload|
    ensures forall b | 15 - k <= b <= 14 && Bit(bitmap, b) :: at + Before(bitmap, b) + FieldWidth(b) <= |payload|
  {
    hide Before;
    hide Bit;
    forall b | 15 - k <= b <= 14 && Bit(bitmap, b)
      ensures at + Before(bitmap, b) + FieldWidth(b) <= |payload|
    {
      BeforeMonotone(bitmap, 14 - k, b);
    }
  }

  /** The hop whose bytes start at offset at. */
  function HopAt(payload: seq<byte>, at: nat, bitmap: u16, domain: u16): Hop
    requires at + HopWidth(bitmap, domain) <= |payload|
  {
    Pow256Values();
    BeforeMonotone(bitmap, 6, 15);
    Hop(if Bit(domain, 0) then TakeFits(8, payload, at + Before(bitmap, 6)) else 0,
        if Bit(bitmap, 15) then TakeFits(4, payload, at) else 0,
        MetaUpTo(payload, at, bitmap, 8))
  }

  function TakeFits(n: nat, payload: seq<byte>, pos: nat): (v: nat)
    requires pos + n <= |payload|
    ensures v == Take(n, payload, pos) && v < Pow256(n)
  {
    NatOfBound(payload[pos..pos + n]);
    Take(n, payload, pos)
  }

  //////////////////////////////////////////////////////////////////////
  // The specification of the whole handler
  //////////////////////////////////////////////////////////////////////

  /** C++ division and remainder truncate toward zero. */
  function TruncDiv(a: int, b: int): int
    requires b > 0
  {
    if a >= 0 then a / b else -((-a) / b)
  }

  function TruncMod(a: int, b: int): int
    requires b > 0
  {
    a - TruncDiv(a, b) * b
  }

  function HopsAt(payload: seq<byte>, at: nat, n: nat, bitmap: u16, domain: u16): (hops: seq<Hop>)
    requires at + n * HopWidth(bitmap, domain) <= |payload|
    ensures |hops| == n
  {
    seq(n, i requires 0 <= i < n =>
      HopInside(payload, at, n, i, HopWidth(bitmap, domain));
      HopAt(payload, at + i * HopWidth(bitmap, domain), bitmap, domain))
  }

  lemma HopInside(payload: seq<byte>, at: nat, n: nat, i: nat, width: nat)
    requires at + n * width <= |payload| && i < n
    ensures 0 <= i * width && at + i * width + width <= |payload|
  {
    assert (n - i - 1) * width >= 0;
    assert n * width == i * width + width + (n - i - 1) * width;
  }

  function Key(payload: seq<byte>): FlowKey
    requires |payload| >= 20
  {
    NO_FLOWKEY.(flow_id := Take(4, payload, 16) % 0x10_0000)
  }

  /** The bytes that c_str() gives access to: those of the string and a terminating zero. */
  function CStr(s: seq<byte>): seq<byte> {
    s + [0]
  }

  function Decoded(payload: seq<byte>, nodeID: u32): Outcome {
    var x := CStr(payload);
    if |payload| < 16 || Take(8, x, 0) != INT_IDENTIFIER then NotHandled else
    var hdrLen := Take(8, x, 8);
    if |payload| - 16 < hdrLen then NotHandled else
    if |x| < 36 then Undefined else
    var end := 16 + hdrLen;
    DecodedStack(x, nodeID, end, Take(1, x, end - 15) - 3, Take(1, x, end - 10) % 32,
                 TakeU16(x, end - 8), TakeU16(x, end - 4))
  }

  /** The rest of the handler, once the sizes and bitmaps are read. */
  function DecodedStack(payload: seq<byte>, nodeID: u32, end: nat, stackSize: int, hopSize: nat, bitmap: u16,
      domain: u16)
    : Outcome
    requires 36 <= |payload| && 16 <= end <= |payload|
  {
    if hopSize == 0 then Undefined else
    if TruncMod(stackSize, hopSize) != 0 then NotHandled else
    var n := if stackSize < 0 then 0 else stackSize / hopSize;
    if end + n * HopWidth(bitmap, domain) > |payload| then Undefined else
    Pow256Values();
    Reported(Key(payload),
             Report(HopsAt(payload, end, n, bitmap, domain), PACKET_TYPE_SCION, payload[8..end - 8]),
             TopicName(TakeFits(8, payload, 28), nodeID))
  }

  function TakeU16(payload: seq<byte>, pos: nat): u16
    requires pos + 2 <= |payload|
  {
    Pow256Values();
    TakeFits(2, payload, pos)
  }

  //////////////////////////////////////////////////////////////////////
  // The handler as the source writes it
  //////////////////////////////////////////////////////////////////////

  /** One raw field: its bytes are pushed onto the (new) metadata entry. False: the read leaves the payload. */
  method CopyField(payload: seq<byte>, at: nat, present: bool, width: nat, kind: u32, before: map<u32, seq<byte>>)
    returns (ok: bool, metadata: map<u32, seq<byte>>, pos: nat)
    requires width > 0
    ensures ok == (!present || at + width <= |payload|)
    ensures ok ==> pos == (if present then at + width else at)
    ensures ok ==> metadata == if present then before[kind := payload[at..at + width]] else before
  {
    ok, metadata, pos := true, before, at;
    if present {
      var bytes := [];
      for j := 0 to width
        invariant j == 0 || at + j <= |payload|
        invariant bytes == if j == 0 then [] else payload[at..at + j]
      {
        if at + j >= |payload| { return false, metadata, pos; }
        bytes := bytes + [payload[at + j]];
        assert payload[at..at + j + 1] == payload[at..at + j] + [payload[at + j]] || j == 0;
      }
      metadata, pos := metadata[kind := bytes], at + width;
    }
  }

  /** One timestamp: microseconds to nanoseconds in 64-bit arithmetic, pushed most significant byte first. */
  method TimeField(payload: seq<byte>, at: nat, present: bool, kind: u32, before: map<u32, seq<byte>>)
    returns (ok: bool, metadata: map<u32, seq<byte>>, pos: nat)
    ensures ok == (!present || at + 8 <= |payload|)
    ensures ok ==> pos == (if present then at + 8 else at)
    ensures ok ==> metadata == if present
                               then before[kind := BytesOf(8, Take(8, payload, at) * 1000 % 0x1_0000_0000_0000_0000)]
                               else before
  {
    ok, metadata, pos := true, before, at;
    if present {
      if at + 8 > |payload| { return false, metadata, pos; }
      var timestamp := TakeUint(8, payload, at);
      timestamp := timestamp * 1000 % 0x1_0000_0000_0000_0000;
      var bytes := ToBitstring(8, timestamp);
      metadata, pos := metadata[kind := bytes], at + 8;
    }
  }

  lemma MetaStep(payload: seq<byte>, at: nat, bitmap: u16, k: nat)
    requires 1 <= k <= 8 && at + Before(bitmap, 14 - k) <= |payload|
    ensures at + Before(bitmap, 15 - k) <= |payload|
    ensures Bit(bitmap, 15 - k) ==> at + Before(bitmap, 15 - k) + FieldWidth(15 - k) <= |payload|
    ensures MetaUpTo(payload, at, bitmap, k) ==
            if Bit(bitmap, 15 - k) then MetaUpTo(payload, at, bitmap, k - 1)[k := MetaBytes(payload, at, bitmap, k)]
            else MetaUpTo(payload, at, bitmap, k - 1)
  {
    hide Before;
    hide Bit;
    BeforeStep(bitmap, 14 - k);
    MetaInside(payload, at, bitmap, k);
  }

  /** The decoder stands after the field of metadata type k of the hop that starts at offset at. */
  ghost predicate Reading(payload: seq<byte>, at: nat, bitmap: u16, k: nat, metadata: map<u32, seq<byte>>, pos: nat) {
    && k <= 8 && at + Before(bitmap, 14 - k) <= |payload|
    && pos == at + Before(bitmap, 14 - k)
    && metadata == MetaUpTo(payload, at, bitmap, k)
  }

  /** The `if (bitmapInt & (1 << (15 - kind)))` block of metadata type kind. */
  method MetaField(payload: seq<byte>, ghost at: nat, bitmap: u16, kind: nat, before: map<u32, seq<byte>>, oldPos: nat)
    returns (ok: bool, metadata: map<u32, seq<byte>>, pos: nat)
    requires 1 <= kind <= 8 && Reading(payload, at, bitmap, kind - 1, before, oldPos)
    ensures ok == (at + Before(bitmap, 14 - kind) <= |payload|)
    ensures ok ==> Reading(payload, at, bitmap, kind, metadata, pos)
  {
    hide Bit;
    hide Before;
    hide Take;
    hide MetaUpTo;
    if kind == 4 || kind == 5 {
      ok, metadata, pos := TimeField(payload, oldPos, Bit(bitmap, 15 - kind), kind, before);
    } else {
      ok, metadata, pos := CopyField(payload, oldPos, Bit(bitmap, 15 - kind), FieldWidth(15 - kind), kind, before);
    }
    BeforeStep(bitmap, 14 - kind);
    if ok {
      MetaStep(payload, at, bitmap, kind);
    }
  }

  lemma NoMetadataYet(payload: seq<byte>, at: nat, bitmap: u16)
    requires at + Before(bitmap, 14) <= |payload|
    ensures MetaUpTo(payload, at, bitmap, 0) == map[]
    ensures Before(bitmap, 14) == if Bit(bitmap, 15) then 4 else 0
  {
  }

  lemma FieldsEndInside(bitmap: u16, domain: u16)
    ensures forall b | 6 <= b <= 14 :: Before(bitmap, b) <= HopWidth(bitmap, domain)
    ensures Bit(bitmap, 15) ==> 4 <= HopWidth(bitmap, domain)
    ensures !Bit(bitmap, 15) ==> Before(bitmap, 14) == 0
    ensures Bit(bitmap, 15) ==> Before(bitmap, 14) == 4
  {
    BeforeStep(bitmap, 14);
    hide Before;
    hide Bit;
    forall b | 6 <= b <= 14
      ensures Before(bitmap, b) <= HopWidth(bitmap, domain)
    {
      BeforeMonotone(bitmap, 6, b);
    }
  }

  /** One turn of the hop loop, for a hop that starts inside the payload. False: some read leaves it. */
  method ReadHop(payload: seq<byte>, at: nat, bitmap: u16, domain: u16) returns (ok: bool, hop: Hop, pos: nat)
    requires at <= |payload|
    ensures ok == (at + HopWidth(bitmap, domain) <= |payload|)
    ensures ok ==> hop == HopAt(payload, at, bitmap, domain) && pos == at + HopWidth(bitmap, domain)
  {
    hide Before;
    hide Bit;
    hide Take;
    hide MetaUpTo;
    hide MetaBytes;
    FieldsEndInside(bitmap, domain);
    Pow256Values();
    hop, pos := NO_HOP, at;
    if Bit(bitmap, 15) {
      if pos + 4 > |payload| { return false, hop, pos; }
      var readNodeID := TakeUint(4, payload, pos);
      pos := pos + 4;
      hop := hop.(node_id := readNodeID);
    }
    NoMetadataYet(payload, at, bitmap);
    var metadata: map<u32, seq<byte>> := map[];
    ok, metadata, pos := MetaField(payload, at, bitmap, 1, metadata, pos);
    if !ok { return; }
    ok, metadata, pos := MetaField(payload, at, bitmap, 2, metadata, pos);
    if !ok { return; }
    ok, metadata, pos := MetaField(payload, at, bitmap, 3, metadata, pos);
    if !ok { return; }
    ok, metadata, pos := MetaField(payload, at, bitmap, 4, metadata, pos);
    if !ok { return; }
    ok, metadata, pos := MetaField(payload, at, bitmap, 5, metadata, pos);
    if !ok { return; }
    ok, metadata, pos := MetaField(payload, at, bitmap, 6, metadata, pos);
    if !ok { return; }
    ok, metadata, pos := MetaField(payload, at, bitmap, 7, metadata, pos);
    if !ok { return; }
    ok, metadata, pos := MetaField(payload, at, bitmap, 8, metadata, pos);
    if !ok { return; }
    hop := hop.(metadata := metadata);
    if Bit(domain, 0) {
      if pos + 8 > |payload| { return false, hop, pos; }
      var readAS := TakeUint(8, payload, pos);
      pos := pos + 8;
      hop := hop.(asn := readAS);
    }
  }

  /** The hop loop; it does not run for a negative count. */
  method ReadHops(payload: seq<byte>, start: nat, count: int, bitmap: u16, domain: u16)
      returns (ok: bool, hops: seq<Hop>)
    requires start <= |payload|
    ensures var n := if count < 0 then 0 else count;
      && ok == (start + n * HopWidth(bitmap, domain) <= |payload|)
      && (ok ==> hops == HopsAt(payload, start, n, bitmap, domain))
  {
    hide HopAt;
    hide HopWidth;
    hops := [];
    var pos, i := start, 0;
    ghost var width := HopWidth(bitmap, domain);
    while i < count
      invariant 0 <= i && (count >= 0 ==> i <= count) && (count < 0 ==> i == 0)
      invariant pos == start + i * width <= |payload|
      invariant hops == HopsAt(payload, start, i, bitmap, domain)
    {
      var hop;
      ok, hop, pos := ReadHop(payload, pos, bitmap, domain);
      if !ok {
        TooFar(i, count, width);
        return;
      }
      hops := hops + [hop];
      assert (i + 1) * width == i * width + width;
      i := i + 1;
    }
    ok := true;
  }

  /** IntController::handlePacketIn. A protobuf bytes field is shorter than 2 GiB, so no 32-bit offset wraps. */
  method HandlePacketIn(payload: seq<byte>, nodeID: u32) returns (o: Outcome)
    requires |payload| < 0x8000_0000
    ensures o == Decoded(payload, nodeID)
  {
    hide HopAt;
    hide HopWidth;
    hide TopicName;
    hide NatOf;
    if |payload| < 16 { return NotHandled; }
    var text := CStr(payload);
    var pos: nat := 0;
    var identifier := TakeUint(8, text, pos);
    pos := pos + 8;
    var hdrLen := TakeUint(8, text, pos);
    pos := pos + 8;
    if identifier != INT_IDENTIFIER { return NotHandled; }
    if |payload| - pos < hdrLen { return NotHandled; }
    if |text| < pos + 12 + 8 { return Undefined; }
    Pow256Values();
    var flowKeyMsg := TakeUint(4, text, pos);
    var flowKey := NO_FLOWKEY.(flow_id := flowKeyMsg % 0x10_0000);
    var asAddr := TakeUint(8, text, pos + 12);
    var bitmapInt := TakeUint(2, text, pos + hdrLen - 8);
    var bitmapScion := TakeUint(2, text, pos + hdrLen - 4);
    var length := TakeUint(1, text, pos + hdrLen - 12 - 3);
    var intStackSize := length as int - 3;
    var hopML := TakeUint(1, text, pos + hdrLen - 10);
    var intHopSize := hopML % 32;
    if intHopSize == 0 { return Undefined; }
    if TruncMod(intStackSize, intHopSize) != 0 { return NotHandled; }
    var report := NO_REPORT;
    pos := pos + hdrLen;
    var ok, hops := ReadHops(text, pos, TruncDiv(intStackSize, intHopSize), bitmapInt, bitmapScion);
    if !ok { return Undefined; }
    report := report.(hops := hops);
    report := report.(packet_type := PACKET_TYPE_SCION);
    report := report.(truncated_packet := text[8..8 + hdrLen]);
    o := Reported(flowKey, report, TopicName(asAddr, nodeID));
  }

  lemma TooFar(i: nat, n: nat, width: nat)
    requires i < n
    ensures i * width + width <= n * width
  {
    assert (n - i - 1) * width >= 0;
    assert n * width == i * width + width + (n - i - 1) * width;
  }
}
