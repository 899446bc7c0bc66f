/** INTSwitchIngress, INTSwitchEgress, the checksum lists and the deparser.
    The functions give the net effect on a packet; the class performs the actions one by one. */
module IntSwitch {
  import opened Bits
  import opened Headers
  import opened Parser

  const NUM_INTER_HOPS: byte := 10
  const SCION_DOMAIN_ID: u16 := 1
  const INT_IDENTIFIER: u64 := 0x494e54
  /** instance_type of the clone made by the clone session. */
  const CLONE: nat := 1

  datatype Action = InsertInt(instructionBits: u16, domainBits: u16) | CloneInt

  /** The tables the controller writes; a missing key means NoAction. */
  datatype Tables = Tables(scionInt: map<(u16, u48), Action>, nodeId: map<u1, u32>, asAddr: map<u1, u64>,
                           txUtil: map<(u1, u9), u32>)

  /** The part of standard_metadata the egress actions read. */
  datatype Std = Std(ingressTime: u48, egressTime: u48, egressPort: u9)

  //////////////////////////////////////////////////////////////////////
  // Net effect
  //////////////////////////////////////////////////////////////////////

  function Flag(b: bool): u1 {
    if b then 1 else 0
  }

  /** The one-hop stack for the given bitmaps. */
  function Hop(instr: u16, domain: u16, t: Tables, std: Std): IntStack {
    var node, util, asn := Flag(Bit(instr, 15)), (Flag(Bit(instr, 8)), std.egressPort), Flag(Bit(domain, 0));
    IntStack(None,
             if node in t.nodeId then Some(t.nodeId[node]) else None,
             if Bit(instr, 11) then Some(std.ingressTime) else None,
             if Bit(instr, 10) then Some(std.egressTime) else None,
             if util in t.txUtil then Some(t.txUtil[util]) else None,
             if asn in t.asAddr then Some(t.asAddr[asn]) else None)
  }

  /** 32-bit words of a one-hop stack. */
  function Words(s: IntStack): (n: nat)
    ensures n <= 8
  {
    (if s.nodeID.Some? then 1 else 0) + (if s.ingressTime.Some? then 2 else 0) + (if s.egressTime.Some? then 2 else 0)
    + (if s.egressIFUtil.Some? then 1 else 0) + (if s.sciAsAddr.Some? then 2 else 0)
  }

  function Mod16(v: int): u16 {
    v % 0x1_0000
  }

  function GrowUdp(u: Option<Udp>, d: int): Option<Udp> {
    if u.Some? then Some(u.value.(len := Mod16(u.value.len + d))) else None
  }

  /** All four length fields changed by d, in 16-bit arithmetic. */
  function Grow(h: Headers, d: int): Headers {
    var ipv4 := if h.outer.ipv4.Some? then Some(h.outer.ipv4.value.(totalLen := Mod16(h.outer.ipv4.value.totalLen + d)))
                else None;
    var common := if h.scion.common.Some?
                  then Some(h.scion.common.value.(payloadLen := Mod16(h.scion.common.value.payloadLen + d))) else None;
    h.(outer := h.outer.(ipv4 := ipv4, udp := GrowUdp(h.outer.udp, d)),
       scion := h.scion.(common := common),
       inner := h.inner.(udp := GrowUdp(h.inner.udp, d)))
  }

  /** insert_int, for a one-hop stack of n words still to come. */
  function WithShim(i: Inner, instr: u16, domain: u16, n: nat): Inner
    requires i.udp.Some? && n <= 8
  {
    Inner(Some(i.udp.value.(dstPort := INT_UDP_PORT)),
          Some(IntShim(TYPE_MD, 1, 0, 3 + n, i.udp.value.dstPort)),
          Some(IntMd(2, 0, 0, 0, 0, n, NUM_INTER_HOPS, instr, if domain == 0 then 0 else SCION_DOMAIN_ID, domain, 0)))
  }

  /** The egress half of that: the stack goes in and all lengths are refreshed. */
  function Stacked(h: Headers, t: Tables, std: Std): Headers
    requires h.inner.shim.Some? && h.inner.md.Some?
  {
    var md := h.inner.md.value;
    var hop := Hop(md.instructionBitmap, md.domainInstructions, t, std);
    var n := Words(hop);
    var shim := h.inner.shim.value.(length := 3 + n);
    Grow(h.(stack := hop.(pre := h.stack.pre),
            inner := h.inner.(shim := Some(shim), md := Some(md.(hopML := n)))), 16 + 4 * n)
  }

  /** What the INT source makes of a packet: ingress action insert_int and the egress actions. */
  function Inserted(h: Headers, instr: u16, domain: u16, hop: IntStack): Headers
    requires h.inner.udp.Some?
  {
    Grow(h.(inner := WithShim(h.inner, instr, domain, Words(hop)), stack := hop.(pre := h.stack.pre)),
         16 + 4 * Words(hop))
  }

  /** delete_int. */
  function Deleted(h: Headers): Headers
    requires h.inner.udp.Some? && h.inner.shim.Some?
  {
    var shim := h.inner.shim.value;
    Grow(h.(inner := Inner(Some(h.inner.udp.value.(dstPort := shim.udpPort)), None, None),
            stack := h.stack.(pre := None)), -(4 + 4 * shim.length))
  }

  /** keep_int_cpu. */
  function CpuCopy(h: Headers, cpuHdrLen: u64): Headers {
    h.(outer := Outer(None, None, None), cpu := Some(IntCpu(INT_IDENTIFIER, cpuHdrLen)), payload := None)
  }

  /** The action scion_int selects; the keys are read only from packets with a SCION address. */
  function Lookup(h: Headers, t: Tables): Option<Action> {
    if h.outer.ethernet.None? || h.inner.udp.None? || h.scion.addr.None? then None else
    var key := (h.scion.addr.value.dstISD, h.scion.addr.value.dstAS);
    if key in t.scionInt then Some(t.scionInt[key]) else None
  }

  /** The packet that leaves, from a parsed packet: instance type 0 or a replica. */
  function Forwarded(h: Headers, t: Tables, std: Std): Headers {
    match Lookup(h, t)
    case None => h
    case Some(InsertInt(instr, domain)) => Inserted(h, instr, domain, Hop(instr, domain, t, std))
    case Some(CloneInt) => if h.inner.shim.Some? then Deleted(h) else h
  }

  /** The clone that leaves for the CPU port, if any. */
  function Cloned(h: Headers, cpuHdrLen: u64, t: Tables): Option<Headers> {
    if Lookup(h, t) == Some(CloneInt) && h.inner.shim.Some? then Some(CpuCopy(h, cpuHdrLen)) else None
  }

  //////////////////////////////////////////////////////////////////////
  // Checksums and output; csum stands for the csum16 extern
  //////////////////////////////////////////////////////////////////////

  function Ipv4List(ip: Ipv4): seq<byte> {
    ip.Front() + ip.Addrs()
  }

  /** The headers named in the list of both UDP checksum externs, member by member; those of int_stack_t and
      int_chksum_compl that are never valid contribute nothing. */
  function Listed(h: Headers): seq<byte> {
    ListedStack(ListedInner(ListedPath(ListedScion(h.scion), h.path), h.inner), h.stack) + Raw(h.payload)
  }

  function ListedScion(s: Scion): seq<byte> {
    (if s.common.Some? then s.common.value.Bytes() else []) + (if s.addr.Some? then s.addr.value.Bytes() else [])
    + Raw(s.dst.first) + Raw(s.dst.second) + Raw(s.dst.third) + Raw(s.dst.wide)
    + Raw(s.src.first) + Raw(s.src.second) + Raw(s.src.third) + Raw(s.src.wide)
  }

  function ListedPath(before: seq<byte>, p: Path): seq<byte> {
    before + (if p.meta.Some? then p.meta.value.Bytes() else [])
    + Raw(p.info0) + Raw(p.info1) + Raw(p.info2) + Raw(p.hops)
  }

  function ListedInner(before: seq<byte>, i: Inner): seq<byte> {
    before + (if i.udp.Some? then i.udp.value.Bytes() else [])
    + (if i.shim.Some? then i.shim.value.Bytes() else [])
    + (if i.md.Some? then i.md.value.Bytes() else [])
  }

  function ListedStack(before: seq<byte>, s: IntStack): seq<byte> {
    before + Raw(s.pre) + Word32(s.nodeID) + Word64(s.ingressTime) + Word64(s.egressTime)
    + Word32(s.egressIFUtil) + Word64(s.sciAsAddr)
  }

  lemma Append4(x: seq<byte>, a: seq<byte>, b: seq<byte>, c: seq<byte>, d: seq<byte>)
    ensures x + (a + b + c + d) == x + a + b + c + d
    ensures x + (a + b + c) == x + a + b + c
  {
  }

  lemma Append6(x: seq<byte>, a: seq<byte>, b: seq<byte>, c: seq<byte>, d: seq<byte>, e: seq<byte>, f: seq<byte>)
    ensures x + (a + b + c + d + e) == x + a + b + c + d + e
    ensures x + (a + b + c + d + e + f) == x + a + b + c + d + e + f
  {
    Append4(x, a, b, c, d);
    assert x + (a + b + c + d + e) == x + (a + b + c + d) + e;
    assert x + (a + b + c + d + e + f) == x + (a + b + c + d + e) + f;
  }

  /** The list names the headers in the order in which they are emitted. */
  lemma ListedInOrder(h: Headers)
    ensures Listed(h) == h.FromScion()
  {
    hide Scion.Bytes;
    hide Path.Bytes;
    hide Inner.Bytes;
    hide IntStack.Bytes;
    hide ListedScion;
    hide ListedPath;
    hide ListedInner;
    hide ListedStack;
    ScionInOrder(h.scion);
    PathInOrder(h.scion.Bytes(), h.path);
    InnerInOrder(h.scion.Bytes() + h.path.Bytes(), h.inner);
    StackInOrder(h.ScionToMd(), h.stack);
  }

  lemma ScionInOrder(s: Scion)
    ensures ListedScion(s) == s.Bytes()
  {
    hide Raw;
    hide ScionCommon.Bytes;
    hide AddrCommon.Bytes;
    var x := (if s.common.Some? then s.common.value.Bytes() else [])
             + (if s.addr.Some? then s.addr.value.Bytes() else []);
    Append4(x, Raw(s.dst.first), Raw(s.dst.second), Raw(s.dst.third), Raw(s.dst.wide));
    Append4(x + s.dst.Bytes(), Raw(s.src.first), Raw(s.src.second), Raw(s.src.third), Raw(s.src.wide));
  }

  lemma PathInOrder(x: seq<byte>, p: Path)
    ensures ListedPath(x, p) == x + p.Bytes()
  {
    hide Raw;
    hide PathMeta.Bytes;
    Append6(x, if p.meta.Some? then p.meta.value.Bytes() else [],
            Raw(p.info0), Raw(p.info1), Raw(p.info2), Raw(p.hops), []);
  }

  lemma InnerInOrder(x: seq<byte>, i: Inner)
    ensures ListedInner(x, i) == x + i.Bytes()
  {
    hide Udp.Bytes;
    hide IntShim.Bytes;
    hide IntMd.Bytes;
    Append4(x, if i.udp.Some? then i.udp.value.Bytes() else [], if i.shim.Some? then i.shim.value.Bytes() else [],
            if i.md.Some? then i.md.value.Bytes() else [], []);
  }

  lemma StackInOrder(x: seq<byte>, s: IntStack)
    ensures ListedStack(x, s) == x + s.Bytes()
  {
    hide Raw;
    hide Word32;
    hide Word64;
    Append6(x, Raw(s.pre), Word32(s.nodeID), Word64(s.ingressTime), Word64(s.egressTime), Word32(s.egressIFUtil),
            Word64(s.sciAsAddr));
  }

  /** The list of both UDP checksum externs, followed by the payload they take from the packet: the pseudo-header of
      RFC 768 and all bytes from UDP on without the checksum. */
  function UdpList(ip: Ipv4, udp: Udp, h: Headers, rest: seq<byte>): (b: seq<byte>)
    ensures b == ip.Addrs() + [0, ip.protocol] + BytesOf(2, udp.len) + udp.Front() + (h.FromScion() + rest)
  {
    ListedInOrder(h);
    ip.Addrs() + [0, ip.protocol] + BytesOf(2, udp.len) + udp.Front() + (Listed(h) + rest)
  }

  /** MyComputeChecksum. */
  function WithChecksums(h: Headers, rest: seq<byte>, csum: seq<byte> -> u16): Headers {
    if h.outer.ipv4.None? then h else
    var ip := h.outer.ipv4.value;
    var udp := if h.outer.udp.Some? && h.outer.udp.value.checksum != 0
               then Some(h.outer.udp.value.(checksum := csum(UdpList(ip, h.outer.udp.value, h, rest))))
               else h.outer.udp;
    h.(outer := h.outer.(ipv4 := Some(ip.(hdrChecksum := csum(Ipv4List(ip)))), udp := udp))
  }

  function Emit(h: Headers, rest: seq<byte>, csum: seq<byte> -> u16): seq<byte> {
    WithChecksums(h, rest, csum).Deparse() + rest
  }

  /** What the switch sends out for x. None: a target that discards packets after a parser error got one. */
  function Output(tg: Target, x: seq<byte>, t: Tables, std: Std, csum: seq<byte> -> u16): Option<seq<byte>> {
    var p := Received(tg, x);
    if p.None? then None else Some(Emit(Forwarded(p.value.hdr, t, std), p.value.rest, csum))
  }

  /** The bytes of the clone of a packet with these headers, if there is one. */
  function CopySent(h: Headers, rest: seq<byte>, t: Tables, csum: seq<byte> -> u16): Option<seq<byte>>
    requires Extracted(h)
  {
    if h.inner.shim.None? then None else
    var c := Cloned(h, CpuHdrLen(h), t);
    if c.None? then None else Some(Emit(c.value, rest, csum))
  }

  /** What the clone of x sends to the CPU port, if anything. */
  function ToCpu(tg: Target, x: seq<byte>, t: Tables, csum: seq<byte> -> u16): Option<seq<byte>> {
    var p := Received(tg, x);
    if p.None? then None else
    ReceivedThenDeparse(tg, x);
    CopySent(p.value.hdr, p.value.rest, t, csum)
  }

  //////////////////////////////////////////////////////////////////////
  // The controls, action by action
  //////////////////////////////////////////////////////////////////////

  class IntSwitchControl {
    var outer: Outer
    var cpu: Option<IntCpu>
    var scion: Scion
    const path: Path
    var inner: Inner
    var stack: IntStack
    var payload: Option<seq<byte>>
    var meta: Metadata
    var cloneRequested: bool
    var dropped: bool

    function Hdr(): Headers
      reads this
    {
      Headers(outer, cpu, scion, path, inner, stack, payload)
    }

    /** A packet fresh from the parser. */
    constructor (h: Headers, cpuHdrLen: u64)
      ensures Hdr() == h && meta == NO_METADATA.(cpuHdrLen := cpuHdrLen) && !cloneRequested && !dropped
    {
      outer, cpu, scion, path, inner, stack, payload := h.outer, h.cpu, h.scion, h.path, h.inner, h.stack, h.payload;
      meta := NO_METADATA.(cpuHdrLen := cpuHdrLen);
      cloneRequested, dropped := false, false;
    }

    /** The egress flags are exactly the bits of the bitmaps in the INT header. */
    ghost predicate FlagsMatch()
      reads this
    {
      && inner.md.Some?
      && meta.intNodeID == Flag(Bit(inner.md.value.instructionBitmap, 15))
      && meta.intIngressTime == Flag(Bit(inner.md.value.instructionBitmap, 11))
      && meta.intEgressTime == Flag(Bit(inner.md.value.instructionBitmap, 10))
      && meta.intEgIfUtil == Flag(Bit(inner.md.value.instructionBitmap, 8))
      && meta.sciAsAddr == Flag(Bit(inner.md.value.domainInstructions, 0))
    }

    method InsertIntAction(instructionBits: u16, domainBits: u16)
      requires inner.udp.Some?
      requires meta == NO_METADATA.(intState := 2, cpuHdrLen := meta.cpuHdrLen)
      modifies `inner, `meta
      ensures inner == WithShim(old(inner), instructionBits, domainBits, 0)
      ensures FlagsMatch() && meta.intState == 1 && meta.addLen == 16 && meta.cpuHdrLen == old(meta.cpuHdrLen)
    {
      var udp := inner.udp.value;
      var shim := IntShim(TYPE_MD, 1, 0, 3, udp.dstPort);
      var md := IntMd(2, 0, 0, 0, 0, 0, NUM_INTER_HOPS, instructionBits, 0, domainBits, 0);
      if domainBits != 0 {
        md := md.(domainID := SCION_DOMAIN_ID);
      }
      inner := Inner(Some(udp.(dstPort := INT_UDP_PORT)), Some(shim), Some(md));
      meta := meta.(addLen := 0x10);
      if Bit(md.instructionBitmap, 15) {
        meta := meta.(intNodeID := 1);
      }
      if Bit(md.instructionBitmap, 11) {
        meta := meta.(intIngressTime := 1);
      }
      if Bit(md.instructionBitmap, 10) {
        meta := meta.(intEgressTime := 1);
      }
      if Bit(md.instructionBitmap, 8) {
        meta := meta.(intEgIfUtil := 1);
      }
      if Bit(md.domainInstructions, 0) {
        meta := meta.(sciAsAddr := 1);
      }
      meta := meta.(intState := 1);
    }

    /** INTSwitchIngress. */
    method Ingress(t: Tables)
      requires inner.udp.Some? ==> scion.addr.Some?
      requires meta == NO_METADATA.(cpuHdrLen := meta.cpuHdrLen)
      modifies `inner, `meta, `cloneRequested
      ensures meta.cpuHdrLen == old(meta.cpuHdrLen)
      ensures match Lookup(old(Hdr()), t)
        case Some(InsertInt(instr, domain)) =>
          && inner == WithShim(old(inner), instr, domain, 0) && cloneRequested == old(cloneRequested)
          && FlagsMatch() && meta.intState == 1 && meta.addLen == 16
        case Some(CloneInt) => inner == old(inner) && cloneRequested && meta.intState == 0
        case None => inner == old(inner) && cloneRequested == old(cloneRequested) && meta.intState == 2
    {
      meta := meta.(intState := 2, addLen := 0);
      if outer.ethernet.Some? {
        if inner.udp.Some? {
          var key := (scion.addr.value.dstISD, scion.addr.value.dstAS);
          if key in t.scionInt {
            match t.scionInt[key]
            case InsertInt(instr, domain) => InsertIntAction(instr, domain);
            case CloneInt =>
              meta := meta.(intState := 0);
              cloneRequested := true;
          }
        }
      }
    }

    method NodeIdTable(t: Tables)
      requires meta.addLen <= 1000
      modifies `stack, `meta
      ensures stack == old(stack).(nodeID :=
                if old(meta.intNodeID) in t.nodeId then Some(t.nodeId[old(meta.intNodeID)]) else old(stack.nodeID))
      ensures meta == old(meta).(addLen := old(meta.addLen) + if old(meta.intNodeID) in t.nodeId then 4 else 0)
    {
      if meta.intNodeID in t.nodeId {
        meta := meta.(addLen := meta.addLen + 4);
        stack := stack.(nodeID := Some(t.nodeId[meta.intNodeID]));
      }
    }

    method IngressTimestampTable(std: Std)
      requires meta.addLen <= 1000
      modifies `stack, `meta
      ensures stack == old(stack).(ingressTime :=
                if old(meta.intIngressTime) == 1 then Some(std.ingressTime) else old(stack.ingressTime))
      ensures meta == old(meta).(addLen := old(meta.addLen) + if old(meta.intIngressTime) == 1 then 8 else 0)
    {
      if meta.intIngressTime == 1 {
        meta := meta.(addLen := meta.addLen + 8);
        stack := stack.(ingressTime := Some(std.ingressTime));
      }
    }

    method EgressTimestampTable(std: Std)
      requires meta.addLen <= 1000
      modifies `stack, `meta
      ensures stack == old(stack).(egressTime :=
                if old(meta.intEgressTime) == 1 then Some(std.egressTime) else old(stack.egressTime))
      ensures meta == old(meta).(addLen := old(meta.addLen) + if old(meta.intEgressTime) == 1 then 8 else 0)
    {
      if meta.intEgressTime == 1 {
        meta := meta.(addLen := meta.addLen + 8);
        stack := stack.(egressTime := Some(std.egressTime));
      }
    }

    method EgressIfUtilTable(t: Tables, std: Std)
      requires meta.addLen <= 1000
      modifies `stack, `meta
      ensures stack == old(stack).(egressIFUtil :=
                if (old(meta.intEgIfUtil), std.egressPort) in t.txUtil
                then Some(t.txUtil[(old(meta.intEgIfUtil), std.egressPort)]) else old(stack.egressIFUtil))
      ensures meta == old(meta).(addLen :=
                old(meta.addLen) + if (old(meta.intEgIfUtil), std.egressPort) in t.txUtil then 4 else 0)
    {
      if (meta.intEgIfUtil, std.egressPort) in t.txUtil {
        meta := meta.(addLen := meta.addLen + 4);
        stack := stack.(egressIFUtil := Some(t.txUtil[(meta.intEgIfUtil, std.egressPort)]));
      }
    }

    method AsAddrTable(t: Tables)
      requires meta.addLen <= 1000
      modifies `stack, `meta
      ensures stack == old(stack).(sciAsAddr :=
                if old(meta.sciAsAddr) in t.asAddr then Some(t.asAddr[old(meta.sciAsAddr)]) else old(stack.sciAsAddr))
      ensures meta == old(meta).(addLen := old(meta.addLen) + if old(meta.sciAsAddr) in t.asAddr then 8 else 0)
    {
      if meta.sciAsAddr in t.asAddr {
        meta := meta.(addLen := meta.addLen + 8);
        stack := stack.(sciAsAddr := Some(t.asAddr[meta.sciAsAddr]));
      }
    }

    /** The five stack tables in the order of the apply block. */
    method InsertStack(t: Tables, std: Std)
      requires FlagsMatch() && meta.addLen == 16 && stack == NO_STACK.(pre := stack.pre)
      modifies `stack, `meta
      ensures
        var hop := Hop(inner.md.value.instructionBitmap, inner.md.value.domainInstructions, t, std);
        stack == hop.(pre := old(stack.pre)) && meta == old(meta).(addLen := 16 + 4 * Words(hop))
    {
      hide Bit;
      NodeIdTable(t);
      IngressTimestampTable(std);
      EgressTimestampTable(std);
      EgressIfUtilTable(t, std);
      AsAddrTable(t);
    }

    /** Changes every valid length field by d. */
    method AddLengths(d: int)
      modifies `outer, `scion, `inner
      ensures Hdr() == Grow(old(Hdr()), d)
    {
      inner := inner.(udp := GrowUdp(inner.udp, d));
      if scion.common.Some? {
        var common := scion.common.value;
        scion := scion.(common := Some(common.(payloadLen := Mod16(common.payloadLen + d))));
      }
      outer := outer.(udp := GrowUdp(outer.udp, d));
      if outer.ipv4.Some? {
        var ip := outer.ipv4.value;
        outer := outer.(ipv4 := Some(ip.(totalLen := Mod16(ip.totalLen + d))));
      }
    }

    /** int_refresh_length: words into hopML (5 bits) and the shim length (8 bits), bytes elsewhere. */
    method RefreshLength()
      requires inner.udp.Some? && inner.shim.Some? && inner.md.Some? && meta.addLen >= 16
      requires inner.md.value.hopML == 0 && inner.shim.value.length == 3 && (meta.addLen - 16) / 4 <= 8
      modifies `outer, `scion, `inner
      ensures var n := (meta.addLen - 16) / 4;
        Hdr() == Grow(old(Hdr()).(inner := old(inner).(shim := Some(old(inner.shim.value).(length := 3 + n)),
                                                       md := Some(old(inner.md.value).(hopML := n)))), meta.addLen)
    {
      var words := (meta.addLen - 0x10) / 4;
      var md, shim := inner.md.value, inner.shim.value;
      inner := inner.(md := Some(md.(hopML := (md.hopML + words % 32) % 32)),
                      shim := Some(shim.(length := (shim.length + words % 256) % 256)));
      AddLengths(meta.addLen);
    }

    method DeleteIntAction()
      requires inner.udp.Some? && inner.shim.Some?
      modifies `outer, `scion, `inner, `stack
      ensures Hdr() == Deleted(old(Hdr()))
    {
      var shim := inner.shim.value;
      inner := inner.(udp := Some(inner.udp.value.(dstPort := shim.udpPort)));
      var subLen := 4 + shim.length * 4;
      AddLengths(-subLen);
      inner := inner.(shim := None, md := None);
      stack := stack.(pre := None);
    }

    method KeepIntCpuAction()
      modifies `outer, `cpu, `payload
      ensures Hdr() == CpuCopy(old(Hdr()), meta.cpuHdrLen)
    {
      cpu := Some(IntCpu(INT_IDENTIFIER, meta.cpuHdrLen));
      outer := outer.(ethernet := None);
      outer := outer.(ipv4 := None);
      outer := outer.(udp := None);
      payload := None;
    }

    /** INTSwitchEgress after ingress (instance types other than CLONE) or on a clone, whose
        metadata is zero but for cpuHdrLen. */
    method Egress(t: Tables, std: Std, instanceType: nat)
      requires meta.intState == 1 ==> FlagsMatch() && meta.addLen == 16 && stack == NO_STACK.(pre := stack.pre)
      requires meta.intState == 1 ==> inner.udp.Some? && inner.shim.Some? && outer.ethernet.Some?
      requires meta.intState == 1 ==> inner.md.value.hopML == 0 && inner.shim.value.length == 3
      requires instanceType == CLONE ==> meta.intState == 0
      modifies this
      ensures old(meta.intState) == 1 ==>
        && dropped == old(dropped)
        && Hdr() == Stacked(old(Hdr()), t, std)
      ensures meta.intState == old(meta.intState)
      ensures meta.intState != 1 && old(outer.ethernet.Some?) ==>
        if meta.intState == 0 && old(inner.udp.Some? && inner.shim.Some?) then
          && dropped == old(dropped)
          && Hdr() == if instanceType == CLONE then CpuCopy(old(Hdr()), old(meta.cpuHdrLen)) else Deleted(old(Hdr()))
        else
          Hdr() == old(Hdr()) && dropped == (old(dropped) || instanceType == CLONE)
      ensures old(outer.ethernet.None?) ==> Hdr() == old(Hdr()) && dropped == old(dropped)
    {
      hide Bit;
      hide Grow;
      hide Hop;
      hide Words;
      hide IntStack.Bytes;
      if outer.ethernet.Some? {
        if inner.udp.Some? && meta.intState == 1 {
          InsertStack(t, std);
          RefreshLength();
        }
        if inner.udp.Some? && meta.intState == 0 {
          if inner.shim.Some? {
            if instanceType == CLONE {
              KeepIntCpuAction();
            } else {
              DeleteIntAction();
            }
          } else if instanceType == CLONE {
            dropped := true;
          }
        } else if instanceType == CLONE {
          dropped := true;
        }
      }
    }
  }

  /** Ingress and egress on one parsed packet. */
  method Process(h: Headers, t: Tables, std: Std) returns (out: Headers, cloned: bool)
    requires Extracted(h)
    ensures out == Forwarded(h, t, std)
    ensures cloned == (Lookup(h, t) == Some(CloneInt))
  {
    var c := new IntSwitchControl(h, 0);
    c.Ingress(t);
    cloned := c.cloneRequested;
    c.Egress(t, std, 0);
    out := c.Hdr();
  }

  /** Egress on the clone of a parsed packet: dropped, or the CPU copy. */
  method ProcessClone(h: Headers, cpuHdrLen: u64, t: Tables, std: Std) returns (out: Option<Headers>)
    requires Extracted(h)
    ensures Lookup(h, t) == Some(CloneInt) ==> out == Cloned(h, cpuHdrLen, t)
  {
    var c := new IntSwitchControl(h, cpuHdrLen);
    c.Egress(t, std, CLONE);
    out := if c.dropped then None else Some(c.Hdr());
  }
}
