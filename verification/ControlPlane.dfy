/** The event loop of the controller program and its stack of controllers (control_plane.cpp). */
module ControlPlane {
  import opened Bits
  import opened L2
  import opened MacLearning
  import opened Headers
  import opened IntSwitch
  import Decoder
  import EndToEnd
  import IntTables
  import Report

  datatype StreamMessage =
    | ArbitrationUpdate(statusCode: nat)
    | PacketIn(payload: seq<byte>)
    | DigestMessage(digestId: u32, data: seq<DigestData>)
    | IdleTimeout
    | StreamError
    | Unknown

  /** What goes out to Kafka and over TCP for one packet. */
  datatype Published = Published(key: Report.FlowKey, report: Report.Report, topic: string)

  /** The tables of the L2 switch and of the INT switch, the clone sessions, and everything published so far. */
  datatype Plane = Plane(switch: Switch, intTables: Tables, cloneSessions: map<u32, (u9, nat)>,
      published: seq<Published>)

  /** What the controllers know: the id of their digest, the rows of the INT table file, their own address and node id,
      and the size of the INT tables. */
  datatype Config = Config(digestId: u32, rows: seq<IntTables.Row>, hostISD: u16, hostAS: u64, nodeID: u32, size: nat) {
    function Installed(): Tables {
      IntTables.Installed(rows, hostISD, hostAS, nodeID, size)
    }
  }

  const CLONE_SESSIONS: map<u32, (u9, nat)> := map[IntTables.CLONE_SESSION := IntTables.TO_CPU]

  /** One message with nobody else at work; None ends the program: an exception, or undefined behaviour. */
  function Handle(p: Plane, m: StreamMessage, cfg: Config): Option<Plane> {
    match m
    case ArbitrationUpdate(code) =>
      Some(if code == 0 then Plane(INSTALLED, cfg.Installed(), CLONE_SESSIONS, p.published) else p)
    case PacketIn(payload) =>
      var o := Decoder.Decoded(payload, cfg.nodeID);
      if o.Undefined? then None
      else if o.Reported? then Some(p.(published := p.published + [Published(o.key, o.report, o.topic)]))
      else Some(p)
    case DigestMessage(id, data) =>
      if id != cfg.digestId then Some(p)
      else if UpdatesOf(data).None? then None
      else Some(p.(switch := WriteAll(p.switch, UpdatesOf(data).value)))
    case IdleTimeout => Some(p)
    case StreamError => Some(p)
    case Unknown => Some(p)
  }

  function HandleAll(p: Plane, ms: seq<StreamMessage>, cfg: Config): Option<Plane> {
    if ms == [] then Some(p) else
    var q := HandleAll(p, ms[..|ms| - 1], cfg);
    if q.None? then None else Handle(q.value, ms[|ms| - 1], cfg)
  }

  lemma {:induction false} NoneStays(p: Plane, ms: seq<StreamMessage>, i: nat, cfg: Config)
    requires i <= |ms| && HandleAll(p, ms[..i], cfg) == None
    ensures HandleAll(p, ms, cfg) == None
    decreases |ms|
  {
    if i == |ms| {
      assert ms[..i] == ms;
    } else {
      assert ms[..|ms| - 1][..i] == ms[..i];
      NoneStays(p, ms[..|ms| - 1], i, cfg);
    }
  }

  class ControlPlane {
    /** The two groups of tables of the one switch. */
    const con: L2Switch
    const intCon: IntTables.IntTableSwitch
    const macLearning: MacLearningCtrl
    const intCtrl: IntTables.IntController
    /** The rows of the INT table file, which intCtrl keeps as parallel lists. */
    ghost const rows: seq<IntTables.Row>
    var published: seq<Published>

    function Value(): Plane
      reads this, con, intCon
    {
      Plane(con.Value(), intCon.tables, intCon.cloneSessions, published)
    }

    ghost function Cfg(): Config {
      Config(macLearning.macLearnDigestId, rows, intCtrl.hostISD, intCtrl.hostAS, intCtrl.nodeID, intCon.size)
    }

    ghost predicate Valid() {
      intCtrl.Lists(rows)
    }

    constructor (con: L2Switch, intCon: IntTables.IntTableSwitch, macLearning: MacLearningCtrl,
                 intCtrl: IntTables.IntController, ghost rows: seq<IntTables.Row>)
      requires intCtrl.Lists(rows)
      ensures Valid() && published == [] && this.con == con && this.intCon == intCon
      ensures this.macLearning == macLearning && this.intCtrl == intCtrl && this.rows == rows
    {
      this.con, this.intCon, this.macLearning, this.intCtrl := con, intCon, macLearning, intCtrl;
      this.rows, published := rows, [];
    }

    /** setPipelineConfig: all tables are empty and no clone session is left. */
    method ResetPipeline()
      modifies con, intCon
      ensures Value() == Plane(EMPTY, IntTables.NO_TABLES, map[], published)
    {
      con.Reset();
      intCon.Reset();
    }

    /** From the bottom of the stack up, after the reset: DefaultController, which does nothing, MacLearningCtrl,
        IntController. */
    method DispatchArbitrationUpdate(statusCode: nat)
      requires Valid()
      modifies con, intCon
      ensures Some(Value()) == Handle(old(Value()), ArbitrationUpdate(statusCode), Cfg())
    {
      if statusCode == 0 {
        ResetPipeline();
      }
      macLearning.HandleArbitrationUpdate(con, statusCode);
      SetupInstalls();
      intCtrl.HandleArbitrationUpdate(intCon, statusCode, rows);
    }

    /** From the top of the stack down, until somebody handles the packet: IntController, MacLearningCtrl (never),
        DefaultController (always). */
    method DispatchPacketIn(payload: seq<byte>) returns (ok: bool)
      requires |payload| < 0x8000_0000
      modifies this`published
      ensures var q := Handle(old(Value()), PacketIn(payload), Cfg());
        ok == q.Some? && (ok ==> Value() == q.value)
    {
      hide Decoder.Decoded;
      var o := Decoder.HandlePacketIn(payload, intCtrl.nodeID);
      ok := !o.Undefined?;
      if o.Reported? {
        published := published + [Published(o.key, o.report, o.topic)];
      }
    }

    /** IntController (never), MacLearningCtrl (its own digests), DefaultController (always). */
    method DispatchDigest(digestId: u32, data: seq<DigestData>) returns (ok: bool)
      modifies con
      ensures var q := Handle(old(Value()), DigestMessage(digestId, data), Cfg());
        ok == q.Some? && (ok ==> Value() == q.value)
    {
      var handled := macLearning.HandleDigest(con, digestId, data);
      ok := handled.Some?;
    }

    /** The read loop, until the stream or the program ends. A protobuf bytes field is shorter than 2 GiB. */
    method Run(ms: seq<StreamMessage>) returns (ok: bool)
      requires Valid() && forall m :: m in ms && m.PacketIn? ==> |m.payload| < 0x8000_0000
      modifies this`published, con, intCon
      ensures var q := HandleAll(old(Value()), ms, Cfg());
        ok == q.Some? && (ok ==> Value() == q.value)
    {
      hide Handle;
      var i := 0;
      while i < |ms|
        invariant 0 <= i <= |ms|
        invariant HandleAll(old(Value()), ms[..i], Cfg()) == Some(Value())
      {
        assert ms[..i + 1][..i] == ms[..i];
        assert ms[i] in ms;
        ok := Dispatch(ms[i]);
        if !ok {
          NoneStays(old(Value()), ms, i + 1, Cfg());
          return;
        }
        i := i + 1;
      }
      assert ms[..i] == ms;
      ok := true;
    }

    /** The switch on the kind of message. */
    method Dispatch(m: StreamMessage) returns (ok: bool)
      requires Valid() && (m.PacketIn? ==> |m.payload| < 0x8000_0000)
      modifies this`published, con, intCon
      ensures var q := Handle(old(Value()), m, Cfg());
        ok == q.Some? && (ok ==> Value() == q.value)
    {
      ok := true;
      match m {
        case ArbitrationUpdate(code) => DispatchArbitrationUpdate(code);
        case PacketIn(payload) => ok := DispatchPacketIn(payload);
        case DigestMessage(id, data) => ok := DispatchDigest(id, data);
        case IdleTimeout =>
        case StreamError =>
        case Unknown =>
      }
    }
  }

  //////////////////////////////////////////////////////////////////////
  // Whole streams
  //////////////////////////////////////////////////////////////////////

  /** The reports for the packets of a stream. */
  function Reports(ms: seq<StreamMessage>, nodeID: u32): seq<Published> {
    if ms == [] then [] else
    var m := ms[|ms| - 1];
    var o := if m.PacketIn? then Decoder.Decoded(m.payload, nodeID) else Decoder.NotHandled;
    Reports(ms[..|ms| - 1], nodeID) + if o.Reported? then [Published(o.key, o.report, o.topic)] else []
  }

  /** Exactly the decoded packets are published, each once and in order, whatever else is on the stream. */
  lemma {:induction false} PublishesInOrder(p: Plane, ms: seq<StreamMessage>, cfg: Config)
    requires HandleAll(p, ms, cfg).Some?
    ensures HandleAll(p, ms, cfg).value.published == p.published + Reports(ms, cfg.nodeID)
  {
    hide Decoder.Decoded;
    if ms == [] {
      assert p.published + [] == p.published;
    } else {
      PublishesInOrder(p, ms[..|ms| - 1], cfg);
    }
  }

  /** Handling a message does not depend on what was published. */
  lemma SameTables(p: Plane, q: Plane, m: StreamMessage, cfg: Config)
    requires p == q.(published := p.published) && Handle(q, m, cfg).Some?
    ensures var r := Handle(p, m, cfg);
      r.Some? && r.value == Handle(q, m, cfg).value.(published := r.value.published)
  {
    hide Decoder.Decoded;
    hide Config.Installed;
  }

  /** After a won election all tables depend on nothing that happened before it. */
  lemma {:induction false} ElectionForgets(p: Plane, q: Plane, before: seq<StreamMessage>, after: seq<StreamMessage>,
                                           cfg: Config)
    requires HandleAll(p, before + [ArbitrationUpdate(0)] + after, cfg).Some?
    ensures var r := HandleAll(q, [ArbitrationUpdate(0)] + after, cfg);
      var s := HandleAll(p, before + [ArbitrationUpdate(0)] + after, cfg);
      r.Some? && r.value == s.value.(published := r.value.published)
    decreases |after|
  {
    hide Config.Installed;
    var a, b := before + [ArbitrationUpdate(0)], [ArbitrationUpdate(0)];
    if after == [] {
      hide Decoder.Decoded;
      assert a + after == a && b + after == b;
      assert a[..|a| - 1] == before && b[..0] == [];
      assert HandleAll(q, b[..0], cfg) == Some(q);
    } else {
      hide Handle;
      var n := |after| - 1;
      assert (a + after)[..|a + after| - 1] == a + after[..n];
      assert (b + after)[..|b + after| - 1] == b + after[..n];
      ElectionForgets(p, q, before, after[..n], cfg);
      SameTables(HandleAll(q, b + after[..n], cfg).value, HandleAll(p, a + after[..n], cfg).value, after[n], cfg);
    }
  }

  /** After any stream with a won election, the INT tables and the clone session are the installed ones. */
  lemma {:induction false} ElectionInstalls(p: Plane, ms: seq<StreamMessage>, cfg: Config)
    requires ArbitrationUpdate(0) in ms && HandleAll(p, ms, cfg).Some?
    ensures var q := HandleAll(p, ms, cfg).value;
      q.intTables == cfg.Installed() && q.cloneSessions == CLONE_SESSIONS
    decreases |ms|
  {
    hide Decoder.Decoded;
    hide Config.Installed;
    var n := |ms| - 1;
    if ms[n] != ArbitrationUpdate(0) {
      assert ms == ms[..n] + [ms[n]];
      ElectionInstalls(p, ms[..n], cfg);
    }
  }

  /** So after any stream with a won election, for a file of valid lines, a packet for the own AS is cloned, one for a
      listed destination gets the bitmaps of its first line if the table has room for it, and no other packet
      matches. */
  lemma LookupsAfterElection(p: Plane, ms: seq<StreamMessage>, cfg: Config, lines: seq<IntTables.Line>, h: Headers)
    requires ArbitrationUpdate(0) in ms && HandleAll(p, ms, cfg).Some?
    requires IntTables.ValidLines(lines) && IntTables.RowsOf(lines) == Some(cfg.rows)
    requires cfg.hostAS < 0x1_0000_0000_0000 && cfg.size > 0
    requires h.outer.ethernet.Some? && h.inner.udp.Some? && h.scion.addr.Some?
    ensures var t := HandleAll(p, ms, cfg).value.intTables;
      var host, dst := (cfg.hostISD, cfg.hostAS), (h.scion.addr.value.dstISD, h.scion.addr.value.dstAS);
      && (EndToEnd.FlagTables(t, cfg.nodeID, cfg.hostAS) <==> cfg.size >= 512)
      && Lookup(h, t) == (if |IntTables.Ahead(lines, host, dst)| < cfg.size then IntTables.Wanted(lines, host, dst)
                          else None)
  {
    ElectionInstalls(p, ms, cfg);
    hide HandleAll;
    hide Lookup;
    hide IntTables.Installed;
    hide IntTables.ValidLines;
    hide IntTables.Ahead;
    hide IntTables.Wanted;
    hide EndToEnd.FlagTables;
    IntTables.InstalledTables(lines, cfg.hostISD, cfg.hostAS, cfg.nodeID, cfg.size, h);
  }

  /** Learning keeps learn and forward table in agreement, for any list of true digests. */
  lemma {:induction false} DigestsKeepAgreement(sw: Switch, ds: seq<Digest>, truth: Truth)
    requires Fits(sw) && Agreement(sw, {}, truth)
    requires forall i :: 0 <= i < |ds| ==> True(ds[i], truth)
    ensures var sw' := WriteAll(sw, DigestUpdates(ds));
      Fits(sw') && Agreement(sw', {}, truth) && Extends(sw, sw')
  {
    hide Agreement;
    hide Apply;
    hide Fits;
    if ds != [] {
      var d, us := ds[|ds| - 1], DigestUpdates(ds[..|ds| - 1]);
      DigestsKeepAgreement(sw, ds[..|ds| - 1], truth);
      LastUpdates(ds);
      var all, learn := DigestUpdates(ds), InsertLearn(d.mac);
      assert all == us + [learn] + [InsertForward(d.mac, d.port)];
      assert all[..|all| - 1] == us + [learn] && (us + [learn])[..|us|] == us;
      var sw1 := WriteAll(sw, us);
      LearnStep(sw1, d.mac, truth);
      ApplyFits(sw1, learn);
      ForwardStep(Apply(sw1, learn), InsertForward(d.mac, d.port), truth);
      ApplyFits(Apply(sw1, learn), InsertForward(d.mac, d.port));
      ApplyExtends(sw1, learn);
      ApplyExtends(Apply(sw1, learn), InsertForward(d.mac, d.port));
    }
  }

  lemma ApplyExtends(sw: Switch, u: Update)
    ensures Extends(sw, Apply(sw, u))
  {
  }

  /** If the message is a list of our digests, it encodes true ones. */
  ghost predicate CarriesTruth(m: StreamMessage, digestId: u32, truth: Truth) {
    m.DigestMessage? && m.digestId == digestId ==> exists ds: seq<Digest> :: EncodesAll(m.data, ds, truth)
  }

  predicate EncodesAll(data: seq<DigestData>, ds: seq<Digest>, truth: Truth) {
    |data| == |ds| && forall i :: 0 <= i < |ds| ==> Encodes(data[i], ds[i]) && True(ds[i], truth)
  }

  lemma HandleAgrees(p: Plane, m: StreamMessage, cfg: Config, truth: Truth)
    requires Fits(p.switch) && Agreement(p.switch, {}, truth) && CarriesTruth(m, cfg.digestId, truth)
    requires Handle(p, m, cfg).Some?
    ensures var sw := Handle(p, m, cfg).value.switch;
      Fits(sw) && Agreement(sw, {}, truth)
  {
    InstalledFits(truth);
    hide Decoder.Decoded;
    hide Agreement;
    hide Fits;
    hide FloodGroups;
    if m.DigestMessage? && m.digestId == cfg.digestId {
      var ds :| EncodesAll(m.data, ds, truth);
      DecodesDigests(m.data, ds);
      DigestsKeepAgreement(p.switch, ds, truth);
    }
  }

  lemma InstalledFits(truth: Truth)
    ensures Fits(INSTALLED) && Agreement(INSTALLED, {}, truth)
  {
  }

  /** From an election on, whatever the stream brings, the tables agree and forward hosts to their true ports. */
  lemma {:induction false} StreamAgreement(p: Plane, ms: seq<StreamMessage>, cfg: Config, truth: Truth)
    requires forall i :: 0 <= i < |ms| ==> CarriesTruth(ms[i], cfg.digestId, truth)
    requires HandleAll(p, [ArbitrationUpdate(0)] + ms, cfg).Some?
    ensures var sw := HandleAll(p, [ArbitrationUpdate(0)] + ms, cfg).value.switch;
      Fits(sw) && Agreement(sw, {}, truth) && |sw.forward.Keys - sw.learn| <= 1
    decreases |ms|
  {
    hide Agreement;
    hide Fits;
    hide CarriesTruth;
    var all := [ArbitrationUpdate(0)] + ms;
    if ms == [] {
      InstalledFits(truth);
      assert all[..0] == [] && all == [ArbitrationUpdate(0)];
      assert HandleAll(p, all[..0], cfg) == Some(p);
    } else {
      hide Handle;
      var n := |ms| - 1;
      assert all[..|all| - 1] == [ArbitrationUpdate(0)] + ms[..n];
      StreamAgreement(p, ms[..n], cfg, truth);
      HandleAgrees(HandleAll(p, [ArbitrationUpdate(0)] + ms[..n], cfg).value, ms[n], cfg, truth);
    }
    AtMostOneUnlearned(HandleAll(p, all, cfg).value.switch, [], truth);
  }
}
