/** The MAC-learning switch: its tables, one frame through them, and the controller that writes them
    (l2_switch.p4 and mac_learn.cpp). */
module L2 {
  import opened Bits

  const TABLE_SIZE := 1024
  const NUM_SWITCH_PORTS := 8
  const BROADCAST: u48 := 0xffff_ffff_ffff

  datatype Replica = Replica(port: u9, instance: nat)

  /** learn_table, forward_table, the multicast groups and the digest configuration. */
  datatype Switch = Switch(learn: set<u48>, forward: map<u48, u9>, groups: map<u16, seq<Replica>>, digest: bool)

  /** A freshly configured pipeline. */
  const EMPTY := Switch({}, map[], map[], false)

  /** The entities the controller inserts. */
  datatype Update =
    | InsertLearn(mac: u48)
    | InsertForward(fmac: u48, port: u16)
    | InsertGroup(id: u16, replicas: seq<Replica>)
    | InsertDigest

  /** A source MAC address and the port it was seen on. */
  datatype Digest = Digest(mac: u48, port: u9)

  //////////////////////////////////////////////////////////////////////
  // Writes
  //////////////////////////////////////////////////////////////////////

  /** An INSERT fails on a key that exists, on a full table and on a value that is no port. */
  predicate Accepted(s: Switch, u: Update) {
    match u
    case InsertLearn(m) => m !in s.learn && |s.learn| < TABLE_SIZE
    case InsertForward(m, p) => m !in s.forward && |s.forward| < TABLE_SIZE && p < 512
    case InsertGroup(id, _) => id !in s.groups
    case InsertDigest => !s.digest
  }

  function Apply(s: Switch, u: Update): Switch {
    if !Accepted(s, u) then s else
    match u
    case InsertLearn(m) => s.(learn := s.learn + {m})
    case InsertForward(m, p) => s.(forward := s.forward[m := p])
    case InsertGroup(id, r) => s.(groups := s.groups[id := r])
    case InsertDigest => s.(digest := true)
  }

  /** A write request with CONTINUE_ON_ERROR. */
  function WriteAll(s: Switch, us: seq<Update>): Switch {
    if us == [] then s else Apply(WriteAll(s, us[..|us| - 1]), us[|us| - 1])
  }

  predicate AllAccepted(s: Switch, us: seq<Update>) {
    us == [] || (AllAccepted(s, us[..|us| - 1]) && Accepted(WriteAll(s, us[..|us| - 1]), us[|us| - 1]))
  }

  predicate Fits(s: Switch) {
    |s.learn| <= TABLE_SIZE && |s.forward| <= TABLE_SIZE
  }

  lemma ApplyFits(s: Switch, u: Update)
    requires Fits(s)
    ensures Fits(Apply(s, u))
  {
  }

  //////////////////////////////////////////////////////////////////////
  // One frame
  //////////////////////////////////////////////////////////////////////

  function Ports(r: seq<Replica>): (ports: seq<u9>)
    ensures |ports| == |r|
  {
    seq(|r|, i requires 0 <= i < |r| => r[i].port)
  }

  /** Multicast group of a flooded frame: a 9-bit sum. */
  function FloodGroup(ingressPort: u9): u16 {
    (ingressPort + 1) % 512
  }

  /** The ports a frame leaves on. Group 0 means no multicast, so the initial egress port 0 is used. */
  function Egress(s: Switch, dst: u48, ingressPort: u9): seq<u9> {
    if dst in s.forward then [s.forward[dst]]
    else if FloodGroup(ingressPort) == 0 then [0]
    else if FloodGroup(ingressPort) in s.groups then Ports(s.groups[FloodGroup(ingressPort)])
    else []
  }

  /** learn_source is the default action; nothing is sent before the digest is configured. */
  predicate SendsDigest(s: Switch, src: u48) {
    src !in s.learn && s.digest
  }

  //////////////////////////////////////////////////////////////////////
  // Flooding
  //////////////////////////////////////////////////////////////////////

  /** The first n ports without one of them, with consecutive instances. */
  function Flood(n: nat, exclude: nat): (r: seq<Replica>)
    requires n <= 512
  {
    if n == 0 then []
    else Flood(n - 1, exclude)
         + if n - 1 != exclude then [Replica(n - 1, |Flood(n - 1, exclude)|)] else []
  }

  /** Port p gets the frame exactly once if it is one of the first n ports and not the excluded one, otherwise never. */
  lemma {:induction false} FloodReachesEachOnce(n: nat, exclude: nat, p: u9)
    requires n <= 512
    ensures multiset(Ports(Flood(n, exclude)))[p] == if p < n && p != exclude then 1 else 0
  {
    if n > 0 {
      FloodReachesEachOnce(n - 1, exclude, p);
      var r := Flood(n - 1, exclude);
      if n - 1 != exclude {
        PortsOfLast(r, Replica(n - 1, |r|));
      } else {
        assert Flood(n, exclude) == r;
      }
    }
  }

  lemma PortsOfLast(r: seq<Replica>, last: Replica)
    ensures Ports(r + [last]) == Ports(r) + [last.port]
  {
  }

  /** No two replicas of a group share an instance. */
  lemma {:induction false} InstancesAreConsecutive(n: nat, exclude: nat)
    requires n <= 512
    ensures |Flood(n, exclude)| == if exclude < n then n - 1 else n
    ensures forall i | 0 <= i < |Flood(n, exclude)| :: Flood(n, exclude)[i].instance == i
  {
    if n > 0 {
      InstancesAreConsecutive(n - 1, exclude);
    }
  }

  /** The multicast group of that number: all ports but the one it floods for. */
  function GroupReplicas(id: u16): seq<Replica>
    requires id >= 1
  {
    Flood(NUM_SWITCH_PORTS, id - 1)
  }

  /** The groups 1 to n, as createFloodMulticastGroup requests them. */
  function GroupUpdates(n: nat): (us: seq<Update>)
    requires n <= NUM_SWITCH_PORTS
    ensures |us| == n
  {
    if n == 0 then [] else GroupUpdates(n - 1) + [InsertGroup(n, GroupReplicas(n))]
  }

  function FloodGroups(n: nat): map<u16, seq<Replica>>
    requires n <= NUM_SWITCH_PORTS
  {
    map id: u16 | 1 <= id <= n :: GroupReplicas(id)
  }

  lemma {:induction false} GroupsInstalled(n: nat)
    requires n <= NUM_SWITCH_PORTS
    ensures WriteAll(EMPTY, GroupUpdates(n)) == EMPTY.(groups := FloodGroups(n))
  {
    if n == 0 {
      assert FloodGroups(0) == map[];
    } else {
      GroupsInstalled(n - 1);
      assert GroupUpdates(n)[..n - 1] == GroupUpdates(n - 1);
      assert FloodGroups(n) == FloodGroups(n - 1)[n := GroupReplicas(n)];
    }
  }

  //////////////////////////////////////////////////////////////////////
  // What the controller writes
  //////////////////////////////////////////////////////////////////////

  function DigestUpdates(ds: seq<Digest>): (us: seq<Update>)
    ensures |us| == 2 * |ds|
  {
    if ds == [] then []
    else [InsertLearn(ds[0].mac), InsertForward(ds[0].mac, ds[0].port)] + DigestUpdates(ds[1..])
  }

  /** Groups first, then the broadcast address, and only then the digests. */
  function SetupUpdates(): (us: seq<Update>)
    ensures |us| == NUM_SWITCH_PORTS + 2
    ensures us[NUM_SWITCH_PORTS] == InsertLearn(BROADCAST) && us[NUM_SWITCH_PORTS + 1] == InsertDigest
  {
    GroupUpdates(NUM_SWITCH_PORTS) + [InsertLearn(BROADCAST), InsertDigest]
  }

  /** The tables after an undisturbed installation. */
  const INSTALLED := Switch({BROADCAST}, map[], FloodGroups(NUM_SWITCH_PORTS), true)

  lemma SetupInstalls()
    ensures WriteAll(EMPTY, SetupUpdates()) == INSTALLED
    ensures WriteAll(EMPTY, SetupUpdates()[..NUM_SWITCH_PORTS + 1]) == INSTALLED.(digest := false)
  {
    var us := SetupUpdates();
    GroupsInstalled(NUM_SWITCH_PORTS);
    assert us[..NUM_SWITCH_PORTS + 1][..NUM_SWITCH_PORTS] == GroupUpdates(NUM_SWITCH_PORTS);
    assert us[..NUM_SWITCH_PORTS + 2] == us;
  }

  /** Before the broadcast entry is written, no table has an entry and digests are off. */
  lemma {:induction false} GroupsOnly(j: nat)
    requires j <= NUM_SWITCH_PORTS
    ensures WriteAll(EMPTY, SetupUpdates()[..j]) == EMPTY.(groups := FloodGroups(j))
  {
    GroupPrefix(NUM_SWITCH_PORTS, j);
    assert SetupUpdates()[..j] == GroupUpdates(j);
    GroupsInstalled(j);
  }

  lemma {:induction false} GroupPrefix(n: nat, j: nat)
    requires j <= n <= NUM_SWITCH_PORTS
    ensures GroupUpdates(n)[..j] == GroupUpdates(j)
  {
    if j < n {
      GroupPrefix(n - 1, j);
      assert GroupUpdates(n)[..j] == GroupUpdates(n - 1)[..j];
    }
  }

  //////////////////////////////////////////////////////////////////////
  // The switch and the controller as the sources write them
  //////////////////////////////////////////////////////////////////////

  class L2Switch {
    var learn: set<u48>
    var forward: map<u48, u9>
    var groups: map<u16, seq<Replica>>
    var digest: bool

    function Value(): Switch
      reads this
    {
      Switch(learn, forward, groups, digest)
    }

    /** A new pipeline configuration: all tables empty. */
    method Reset()
      modifies this
      ensures Value() == EMPTY
    {
      learn, forward, groups, digest := {}, map[], map[], false;
    }

    method ApplyUpdate(u: Update) returns (ok: bool)
      modifies this
      ensures Value() == Apply(old(Value()), u) && ok == Accepted(old(Value()), u)
    {
      match u {
        case InsertLearn(m) =>
          ok := m !in learn && |learn| < TABLE_SIZE;
          if ok {
            learn := learn + {m};
          }
        case InsertForward(m, p) =>
          ok := m !in forward && |forward| < TABLE_SIZE && p < 512;
          if ok {
            forward := forward[m := p];
          }
        case InsertGroup(id, r) =>
          ok := id !in groups;
          if ok {
            groups := groups[id := r];
          }
        case InsertDigest =>
          ok := !digest;
          digest := true;
      }
    }

    /** All updates are tried, whatever becomes of the earlier ones. */
    method Write(updates: seq<Update>) returns (ok: bool)
      modifies this
      ensures Value() == WriteAll(old(Value()), updates)
      ensures ok == AllAccepted(old(Value()), updates)
    {
      hide Apply;
      hide Accepted;
      ok := true;
      var i := 0;
      while i < |updates|
        invariant 0 <= i <= |updates|
        invariant Value() == WriteAll(old(Value()), updates[..i])
        invariant ok == AllAccepted(old(Value()), updates[..i])
      {
        assert updates[..i + 1][..i] == updates[..i];
        var accepted := ApplyUpdate(updates[i]);
        ok := ok && accepted;
        i := i + 1;
      }
      assert updates[..i] == updates;
    }

    /** L2Switch.apply on a frame with a valid Ethernet header. */
    method ProcessFrame(src: u48, dst: u48, ingressPort: u9) returns (out: seq<u9>, sent: Option<Digest>)
      ensures out == Egress(Value(), dst, ingressPort)
      ensures sent == if SendsDigest(Value(), src) then Some(Digest(src, ingressPort)) else None
    {
      var egressSpec, mcastGrp := 0, 0;
      sent := None;
      if src !in learn {
        if digest {
          sent := Some(Digest(src, ingressPort));
        }
      }
      if dst in forward {
        egressSpec := forward[dst];
      } else {
        mcastGrp := (ingressPort + 1) % 512;
      }
      if mcastGrp == 0 {
        out := [egressSpec];
      } else {
        out := if mcastGrp in groups then Ports(groups[mcastGrp]) else [];
      }
    }
  }

  /** One element of a digest list, as it arrives. */
  datatype DigestData = NotAStruct | Struct(members: seq<seq<byte>>)

  /** The digest a list element carries; None is the exception for a wrong format. Address and port are cut to their
      6 and 2 bytes. */
  function DigestOf(d: DigestData): Option<(u48, u16)> {
    if d.NotAStruct? || |d.members| != 2 then None else
    Pow256Values();
    NatOfBound(Resize(6, d.members[0]));
    NatOfBound(Resize(2, d.members[1]));
    Some((NatOf(Resize(6, d.members[0])), NatOf(Resize(2, d.members[1]))))
  }

  function UpdatesOf(data: seq<DigestData>): Option<seq<Update>> {
    if data == [] then Some([]) else
    var d := DigestOf(data[|data| - 1]);
    var rest := UpdatesOf(data[..|data| - 1]);
    if d.None? || rest.None? then None
    else Some(rest.value + [InsertLearn(d.value.0), InsertForward(d.value.0, d.value.1)])
  }

  /** The P4Runtime encoding of a digest: both members big-endian, with or without leading zeros. */
  predicate Encodes(data: DigestData, d: Digest) {
    data.Struct? && |data.members| == 2
    && |data.members[0]| <= 6 && NatOf(data.members[0]) == d.mac
    && |data.members[1]| <= 2 && NatOf(data.members[1]) == d.port
  }

  lemma DecodesDigest(data: DigestData, d: Digest)
    requires Encodes(data, d)
    ensures DigestOf(data) == Some((d.mac, d.port))
  {
    hide NatOf;
    LeadingZeros(6 - |data.members[0]|, data.members[0]);
    LeadingZeros(2 - |data.members[1]|, data.members[1]);
  }

  lemma {:induction false} DecodesDigests(data: seq<DigestData>, ds: seq<Digest>)
    requires |data| == |ds| && forall i :: 0 <= i < |ds| ==> Encodes(data[i], ds[i])
    ensures UpdatesOf(data) == Some(DigestUpdates(ds))
  {
    hide DigestOf;
    hide Encodes;
    var n := |ds| - 1;
    if n >= 0 {
      DecodesDigests(data[..n], ds[..n]);
      LastUpdates(ds);
      DecodesDigest(data[n], ds[n]);
    }
  }

  lemma {:induction false} LastUpdates(ds: seq<Digest>)
    requires ds != []
    ensures var d := ds[|ds| - 1];
      DigestUpdates(ds) == DigestUpdates(ds[..|ds| - 1]) + [InsertLearn(d.mac), InsertForward(d.mac, d.port)]
  {
    if |ds| > 1 {
      LastUpdates(ds[1..]);
      assert ds[1..][..|ds| - 2] == ds[..|ds| - 1][1..];
    }
  }

  lemma WriteLast(s: Switch, us: seq<Update>, u: Update)
    ensures WriteAll(s, us + [u]) == Apply(WriteAll(s, us), u)
  {
    assert (us + [u])[..|us|] == us;
  }

  class MacLearningCtrl {
    const macLearnDigestId: u32

    constructor (id: u32)
      ensures macLearnDigestId == id
    {
      macLearnDigestId := id;
    }

    /** All ports but one, numbered consecutively. */
    method BuildFloodMcastGrp(exclude: nat) returns (replicas: seq<Replica>)
      ensures replicas == Flood(NUM_SWITCH_PORTS, exclude)
    {
      replicas := [];
      var instance := 0;
      for i := 0 to NUM_SWITCH_PORTS
        invariant instance == |replicas| && replicas == Flood(i, exclude)
      {
        if i != exclude {
          replicas := replicas + [Replica(i, instance)];
          instance := instance + 1;
        }
      }
    }

    method CreateFloodMulticastGroup(con: L2Switch) returns (ok: bool)
      modifies con
      ensures con.Value() == WriteAll(old(con.Value()), GroupUpdates(NUM_SWITCH_PORTS))
    {
      var updates := [];
      for i := 0 to NUM_SWITCH_PORTS
        invariant updates == GroupUpdates(i) && con.Value() == old(con.Value())
      {
        var replicas := BuildFloodMcastGrp(i);
        updates := updates + [InsertGroup(i + 1, replicas)];
      }
      ok := con.Write(updates);
    }

    /** On election: three write requests, on whatever tables there are. */
    method HandleArbitrationUpdate(con: L2Switch, statusCode: nat)
      modifies con
      ensures con.Value() == if statusCode == 0 then WriteAll(old(con.Value()), SetupUpdates()) else old(con.Value())
    {
      hide Apply;
      hide GroupUpdates;
      if statusCode == 0 {
        ghost var s, groups := con.Value(), GroupUpdates(NUM_SWITCH_PORTS);
        var ok := CreateFloodMulticastGroup(con);
        WriteLast(s, groups, InsertLearn(BROADCAST));
        WriteLast(s, groups + [InsertLearn(BROADCAST)], InsertDigest);
        WriteLast(con.Value(), [], InsertLearn(BROADCAST));
        ok := con.Write([] + [InsertLearn(BROADCAST)]);
        WriteLast(con.Value(), [], InsertDigest);
        ok := con.Write([] + [InsertDigest]);
        assert SetupUpdates() == groups + [InsertLearn(BROADCAST)] + [InsertDigest];
      }
    }

    /** None: an exception before anything is written. Some(false): not a digest of ours. */
    method HandleDigest(con: L2Switch, digestId: u32, data: seq<DigestData>) returns (handled: Option<bool>)
      modifies con
      ensures digestId != macLearnDigestId ==> handled == Some(false) && con.Value() == old(con.Value())
      ensures digestId == macLearnDigestId && UpdatesOf(data).None? ==>
                handled == None && con.Value() == old(con.Value())
      ensures digestId == macLearnDigestId && UpdatesOf(data).Some? ==>
                handled == Some(true) && con.Value() == WriteAll(old(con.Value()), UpdatesOf(data).value)
    {
      if digestId != macLearnDigestId { return Some(false); }
      var updates := [];
      var i := 0;
      while i < |data|
        invariant 0 <= i <= |data| && con.Value() == old(con.Value())
        invariant UpdatesOf(data[..i]) == Some(updates)
      {
        var digest := data[i];
        assert data[..i + 1][..i] == data[..i];
        if digest.NotAStruct? || |digest.members| != 2 {
          NoUpdates(data, i);
          return None;
        }
        Pow256Values();
        NatOfBound(Resize(6, digest.members[0]));
        NatOfBound(Resize(2, digest.members[1]));
        var srcMac := FromBitstring(6, digest.members[0]);
        var ingressPort := FromBitstring(2, digest.members[1]);
        updates := updates + [InsertLearn(srcMac), InsertForward(srcMac, ingressPort)];
        i := i + 1;
      }
      assert data[..i] == data;
      var ok := con.Write(updates);
      handled := Some(true);
    }
  }

  lemma {:induction false} NoUpdates(data: seq<DigestData>, i: nat)
    requires i < |data| && DigestOf(data[i]) == None
    ensures UpdatesOf(data) == None
  {
    if i < |data| - 1 {
      NoUpdates(data[..|data| - 1], i);
    }
  }
}
