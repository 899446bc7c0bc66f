/** What the switch learns: from one frame through the protocol, and from a whole stream through the event loop. */
module Learning {
  import opened Bits
  import opened L2
  import opened MacLearning
  import opened ControlPlane

  //////////////////////////////////////////////////////////////////////
  // One frame
  //////////////////////////////////////////////////////////////////////

  /** A frame comes in, its digest list (if there is one) is received, and two writes are executed. */
  function OneFrame(src: u48, dst: u48, p: u9): seq<Event> {
    [Frame(src, dst, p), Receive(0), Execute(false), Execute(false)]
  }

  lemma RunFour(s: State, a: Event, b: Event, c: Event, d: Event)
    ensures Run(s, [a, b, c, d]) == Next(Next(Next(Next(s, a), b), c), d)
  {
    hide Next;
    assert [a, b, c, d][..3] == [a, b, c] && [a, b, c][..2] == [a, b] && [a, b][..1] == [a] && [a][..0] == [];
    assert Run(s, []) == s;
    assert Run(s, [a]) == Next(s, a);
    assert Run(s, [a, b]) == Next(Next(s, a), b);
  }

  /** In any run, once the controller is idle and nothing is under way: a frame from an unknown address makes it learned
      if there is room, and forwarded to the port it came from if there is room; a known address changes nothing. */
  lemma FrameLearns(s0: State, es: seq<Event>, src: u48, dst: u48, p: u9)
    requires Initial(s0) && Ready(Run(s0, es)) && Run(s0, es).todo == [] && Run(s0, es).wire == []
    ensures var s := Run(s0, es);
      var t := Run(s, OneFrame(src, dst, p));
      var unknown := src !in s.switch.learn;
      && t.primary && t.wire == [] && t.todo == []
      && t.switch == s.switch.(
           learn := if unknown && |s.switch.learn| < 1024 then s.switch.learn + {src} else s.switch.learn,
           forward := if unknown && src !in s.switch.forward && |s.switch.forward| < 1024
                      then s.switch.forward[src := p] else s.switch.forward)
  {
    hide Run;
    hide Inv;
    hide Agreement;
    hide Initial;
    hide TrueFrames;
    NoTruth(es);
    RunKeeps(s0, es, ANY_SOURCES);
    ReadyAgrees(Run(s0, es), ANY_SOURCES);
    DigestsOn(Run(s0, es).switch, Pending(Run(s0, es).todo), ANY_SOURCES);
    FourSteps(Run(s0, es), src, dst, p);
  }

  lemma NoTruth(es: seq<Event>)
    ensures TrueFrames(es, ANY_SOURCES)
  {
  }

  lemma FourSteps(s: State, src: u48, dst: u48, p: u9)
    requires s.primary && s.wire == [] && s.todo == [] && s.switch.digest
    ensures var t := Run(s, OneFrame(src, dst, p));
      var unknown := src !in s.switch.learn;
      && t.primary && t.wire == [] && t.todo == []
      && t.switch == s.switch.(
           learn := if unknown && |s.switch.learn| < 1024 then s.switch.learn + {src} else s.switch.learn,
           forward := if unknown && src !in s.switch.forward && |s.switch.forward| < 1024
                      then s.switch.forward[src := p] else s.switch.forward)
  {
    hide Run;
    hide Next;
    RunFour(s, Frame(src, dst, p), Receive(0), Execute(false), Execute(false));
    if src !in s.switch.learn {
      UnknownFrame(s, src, dst, p);
      DigestReceived(s, src, p);
      TwoWrites(s, src, p);
      TwoInserts(s.switch, src, p);
    } else {
      KnownFrame(s, src, dst, p);
    }
    hide Apply;
  }

  lemma TwoInserts(sw: Switch, src: u48, p: u9)
    requires src !in sw.learn
    ensures Apply(Apply(sw, InsertLearn(src)), InsertForward(src, p))
         == sw.(learn := if |sw.learn| < 1024 then sw.learn + {src} else sw.learn,
                forward := if src !in sw.forward && |sw.forward| < 1024 then sw.forward[src := p] else sw.forward)
  {
  }

  lemma KnownFrame(s: State, src: u48, dst: u48, p: u9)
    requires s.wire == [] && s.todo == [] && src in s.switch.learn
    ensures Next(s, Frame(src, dst, p)) == Next(s, Receive(0)) == Next(s, Execute(false)) == s
  {
  }

  lemma UnknownFrame(s: State, src: u48, dst: u48, p: u9)
    requires s.primary && s.wire == [] && s.switch.digest && src !in s.switch.learn
    ensures Next(s, Frame(src, dst, p)) == s.(wire := [DigestList([Digest(src, p)])])
  {
    hide Fits;
    var m := DigestList([Digest(src, p)]);
    assert s.wire + [m] == [m];
    assert Emits(s, Frame(src, dst, p));
    assert Next(s, Frame(src, dst, p)) == s.(wire := s.wire + [m]);
  }

  lemma DigestReceived(s: State, src: u48, p: u9)
    requires s.primary && s.wire == [] && s.todo == []
    ensures Next(s.(wire := [DigestList([Digest(src, p)])]), Receive(0))
         == s.(todo := [Write(InsertLearn(src)), Write(InsertForward(src, p))])
  {
    var d := Digest(src, p);
    assert Without([DigestList([d])], 0) == [];
    assert [d][1..] == [];
    assert DigestUpdates([d]) == [InsertLearn(src), InsertForward(src, p)] + DigestUpdates([]);
  }

  lemma TwoWrites(s: State, src: u48, p: u9)
    requires s.primary && s.todo == []
    ensures var t := s.(todo := [Write(InsertLearn(src)), Write(InsertForward(src, p))]);
      Next(Next(t, Execute(false)), Execute(false))
        == s.(switch := Apply(Apply(s.switch, InsertLearn(src)), InsertForward(src, p)))
  {
    hide Apply;
    var w := Write(InsertForward(src, p));
    assert [Write(InsertLearn(src)), w][1..] == [w] && [w][1..] == [];
  }

  lemma DigestsOn(sw: Switch, pending: set<u48>, truth: Truth)
    requires Agreement(sw, pending, truth)
    ensures sw.digest
  {
  }

  /** So a host that sends a frame is learned and found from then on, if and only if it was known or the learn table had
      room: what is unknown never stands in the forward table while the learn table has room, and finds room there. */
  lemma HostIsFound(s0: State, es: seq<Event>, src: u48, dst: u48, p: u9, q: u9)
    requires Initial(s0) && Ready(Run(s0, es)) && Run(s0, es).todo == [] && Run(s0, es).wire == []
    requires src !in Run(s0, es).switch.learn
    ensures var s := Run(s0, es);
      var sw := Run(s, OneFrame(src, dst, p)).switch;
      && (src in sw.learn <==> |s.switch.learn| < 1024)
      && (src in sw.learn ==> Egress(sw, src, q) == [p])
  {
    FrameLearns(s0, es, src, dst, p);
    hide Run;
    var s := Run(s0, es);
    RunKeeps(s0, es, ANY_SOURCES);
    ReadyAgrees(s, ANY_SOURCES);
    hide Inv;
    if |s.switch.learn| < 1024 {
      UnknownHasRoom(s.switch, src);
    }
  }

  lemma UnknownHasRoom(sw: Switch, src: u48)
    requires Agreement(sw, {}, ANY_SOURCES) && src !in sw.learn && |sw.learn| < 1024
    ensures src !in sw.forward && |sw.forward| < 1024
  {
    assert sw.forward.Keys <= sw.learn;
    Subset(sw.forward.Keys, sw.learn);
  }

  //////////////////////////////////////////////////////////////////////
  // Keys offered to a table of limited size
  //////////////////////////////////////////////////////////////////////

  function Macs(ds: seq<Digest>): (ms: seq<u48>)
    ensures |ms| == |ds| && forall i | 0 <= i < |ds| :: ms[i] == ds[i].mac
  {
    seq(|ds|, i requires 0 <= i < |ds| => ds[i].mac)
  }

  /** What comes before the first m. */
  function Before(ms: seq<u48>, m: u48): seq<u48> {
    if ms == [] || ms[0] == m then [] else [ms[0]] + Before(ms[1..], m)
  }

  function Distinct(ms: seq<u48>): set<u48> {
    set m | m in ms
  }

  /** The keys of a table of 1024 entries that held some and was offered others, one after the other. */
  predicate Holds(table: set<u48>, initial: set<u48>, ms: seq<u48>) {
    forall m: u48 {:trigger m in table} ::
      m in table <==> m in initial || (m in ms && |initial + Distinct(Before(ms, m))| < 1024)
  }

  lemma {:induction false} BeforeMore(ms: seq<u48>, last: u48, m: u48)
    ensures Before(ms + [last], m) == if m in ms || m == last then Before(ms, m) else ms + [last]
    ensures m !in ms ==> Before(ms, m) == ms
  {
    if ms == [] {
      assert ms + [last] == [last];
      assert [last][1..] == [];
    } else {
      assert (ms + [last])[1..] == ms[1..] + [last];
      BeforeMore(ms[1..], last, m);
      assert ms == [ms[0]] + ms[1..];
    }
  }

  /** How full the table is, and that it holds what was offered early enough. */
  predicate Filled(table: set<u48>, initial: set<u48>, ms: seq<u48>) {
    && |table| == (if |initial + Distinct(ms)| < 1024 then |initial + Distinct(ms)| else 1024)
    && table <= initial + Distinct(ms) && Holds(table, initial, ms)
  }

  /** The table after one more offer. */
  function Offer(table: set<u48>, m: u48): set<u48> {
    if m in table || |table| >= 1024 then table else table + {m}
  }

  lemma OfferOne(table: set<u48>, initial: set<u48>, ms: seq<u48>, last: u48)
    requires Filled(table, initial, ms)
    ensures Filled(Offer(table, last), initial, ms + [last])
  {
    OfferSize(table, initial, ms, last);
    hide Filled;
    hide Offer;
    forall m: u48 {:trigger m in Offer(table, last)}
      ensures m in Offer(table, last) <==>
              m in initial || (m in ms + [last] && |initial + Distinct(Before(ms + [last], m))| < 1024)
    {
      OfferHolds(table, initial, ms, last, m);
    }
  }

  lemma OfferSize(table: set<u48>, initial: set<u48>, ms: seq<u48>, last: u48)
    requires Filled(table, initial, ms)
    ensures var t, all := Offer(table, last), initial + Distinct(ms + [last]);
      |t| == (if |all| < 1024 then |all| else 1024) && t <= all
  {
    hide Holds;
    var all := initial + Distinct(ms);
    assert initial + Distinct(ms + [last]) == all + {last};
    if last in all {
      assert all + {last} == all;
      if |table| < 1024 {
        SameSize(table, all);
      }
    } else {
      assert |all + {last}| == |all| + 1;
    }
  }

  lemma OfferHolds(table: set<u48>, initial: set<u48>, ms: seq<u48>, last: u48, m: u48)
    requires Filled(table, initial, ms)
    ensures m in Offer(table, last) <==>
            m in initial || (m in ms + [last] && |initial + Distinct(Before(ms + [last], m))| < 1024)
  {
    BeforeMore(ms, last, m);
    var all := initial + Distinct(ms);
    assert m in table <==> m in initial || (m in ms && |initial + Distinct(Before(ms, m))| < 1024);
    hide Holds;
    hide Before;
    if m == last && m in all && |table| < 1024 {
      SameSize(table, all);
    }
  }

  lemma SameSize(a: set<u48>, b: set<u48>)
    requires a <= b && |a| == |b|
    ensures a == b
  {
    var rest := b - a;
    assert a + rest == b && a !! rest;
  }

  //////////////////////////////////////////////////////////////////////
  // A list of digests
  //////////////////////////////////////////////////////////////////////

  /** The port of the first digest for m. */
  function FirstPort(ds: seq<Digest>, m: u48): Option<u9> {
    if ds == [] then None else if ds[0].mac == m then Some(ds[0].port) else FirstPort(ds[1..], m)
  }

  lemma {:induction false} FirstPortMore(ds: seq<Digest>, last: Digest, m: u48)
    ensures FirstPort(ds + [last], m)
         == if FirstPort(ds, m).Some? then FirstPort(ds, m) else if last.mac == m then Some(last.port) else None
    ensures FirstPort(ds, m).Some? <==> m in Macs(ds)
  {
    if ds == [] {
      assert ds + [last] == [last] && [last][1..] == [];
    } else {
      assert (ds + [last])[1..] == ds[1..] + [last];
      assert Macs(ds) == [ds[0].mac] + Macs(ds[1..]);
      FirstPortMore(ds[1..], last, m);
    }
  }

  /** sw after a list of digests, told without the writes: the learn table holds the broadcast address and the sources
      that came early enough, the forward table the sources that came early enough, each with its first port. */
  predicate Learned(sw: Switch, ds: seq<Digest>) {
    && sw.digest && sw.groups == FloodGroups(8)
    && Filled(sw.learn, {BROADCAST}, Macs(ds))
    && Filled(sw.forward.Keys, {}, Macs(ds))
    && FirstPorts(sw.forward, ds)
  }

  /** One key, with its value, offered to a map of 1024 entries. */
  function Put(table: map<u48, u9>, m: u48, p: u9): map<u48, u9> {
    if m in table || |table| >= 1024 then table else table[m := p]
  }

  predicate FirstPorts(table: map<u48, u9>, ds: seq<Digest>) {
    forall m :: m in table ==> FirstPort(ds, m) == Some(table[m])
  }

  lemma PutKeepsPorts(table: map<u48, u9>, ds: seq<Digest>, d: Digest)
    requires Filled(table.Keys, {}, Macs(ds)) && FirstPorts(table, ds)
    ensures FirstPorts(Put(table, d.mac, d.port), ds + [d])
  {
    var t := Put(table, d.mac, d.port);
    if d.mac !in table && |table| < 1024 {
      NotOffered(table, ds, d.mac);
    }
    hide Filled;
    forall m | m in t
      ensures FirstPort(ds + [d], m) == Some(t[m])
    {
      FirstPortMore(ds, d, m);
    }
  }

  lemma PutKeys(table: map<u48, u9>, m: u48, p: u9)
    ensures Put(table, m, p).Keys
         == if m in table.Keys || |table.Keys| >= 1024 then table.Keys else table.Keys + {m}
  {
    assert |table| == |table.Keys|;
  }

  lemma LearnOne(sw: Switch, ds: seq<Digest>, d: Digest)
    requires Learned(sw, ds)
    ensures Learned(Apply(Apply(sw, InsertLearn(d.mac)), InsertForward(d.mac, d.port)), ds + [d])
  {
    hide Filled;
    hide FirstPorts;
    assert Macs(ds + [d]) == Macs(ds) + [d.mac];
    OfferOne(sw.learn, {BROADCAST}, Macs(ds), d.mac);
    OfferOne(sw.forward.Keys, {}, Macs(ds), d.mac);
    PutKeys(sw.forward, d.mac, d.port);
    PutKeepsPorts(sw.forward, ds, d);
  }

  /** An address that a table with room does not hold was never offered. */
  lemma NotOffered(table: map<u48, u9>, ds: seq<Digest>, m: u48)
    requires Filled(table.Keys, {}, Macs(ds)) && m !in table && |table| < 1024
    ensures m !in Macs(ds)
  {
    assert |table| == |table.Keys|;
    assert {} + Distinct(Macs(ds)) == Distinct(Macs(ds));
    SameSize(table.Keys, Distinct(Macs(ds)));
  }

  lemma {:induction false} DigestsLearned(ds: seq<Digest>)
    ensures Learned(WriteAll(INSTALLED, DigestUpdates(ds)), ds)
  {
    hide Learned;
    if ds == [] {
      NothingLearned();
    } else {
      var before, d := ds[..|ds| - 1], ds[|ds| - 1];
      DigestsLearned(before);
      LastWrites(ds);
      LearnOne(WriteAll(INSTALLED, DigestUpdates(before)), before, d);
      assert before + [d] == ds;
    }
    hide Apply;
    hide DigestUpdates;
    hide WriteAll;
  }

  lemma LastWrites(ds: seq<Digest>)
    requires ds != []
    ensures var before, d := ds[..|ds| - 1], ds[|ds| - 1];
      WriteAll(INSTALLED, DigestUpdates(ds))
        == Apply(Apply(WriteAll(INSTALLED, DigestUpdates(before)), InsertLearn(d.mac)), InsertForward(d.mac, d.port))
  {
    hide Apply;
    hide WriteAll;
    var before, d := ds[..|ds| - 1], ds[|ds| - 1];
    LastUpdates(ds);
    var us := DigestUpdates(before);
    hide DigestUpdates;
    assert DigestUpdates(ds) == us + [InsertLearn(d.mac)] + [InsertForward(d.mac, d.port)];
    WriteLast(INSTALLED, us, InsertLearn(d.mac));
    WriteLast(INSTALLED, us + [InsertLearn(d.mac)], InsertForward(d.mac, d.port));
  }

  lemma NothingLearned()
    ensures Learned(INSTALLED, [])
  {
    assert {BROADCAST} + Distinct(Macs([])) == {BROADCAST};
  }

  //////////////////////////////////////////////////////////////////////
  // A whole stream
  //////////////////////////////////////////////////////////////////////

  /** The digests of our own that a message carries; it is no won election. */
  predicate Carries(m: StreamMessage, digestId: u32, ds: seq<Digest>) {
    && m != ArbitrationUpdate(0)
    && if m.DigestMessage? && m.digestId == digestId then
         |m.data| == |ds| && forall i :: 0 <= i < |ds| ==> Encodes(m.data[i], ds[i])
       else ds == []
  }

  predicate AllCarry(ms: seq<StreamMessage>, digestId: u32, dss: seq<seq<Digest>>) {
    |ms| == |dss| && forall i :: 0 <= i < |ms| ==> Carries(ms[i], digestId, dss[i])
  }

  function Flatten(dss: seq<seq<Digest>>): seq<Digest> {
    if dss == [] then [] else Flatten(dss[..|dss| - 1]) + dss[|dss| - 1]
  }

  lemma {:induction false} WriteConcat(s: Switch, a: seq<Update>, b: seq<Update>)
    ensures WriteAll(s, a + b) == WriteAll(WriteAll(s, a), b)
  {
    hide Apply;
    if b == [] {
      assert a + b == a;
    } else {
      assert (a + b)[..|a + b| - 1] == a + b[..|b| - 1];
      WriteConcat(s, a, b[..|b| - 1]);
    }
  }

  lemma {:induction false} UpdatesConcat(a: seq<Digest>, b: seq<Digest>)
    ensures DigestUpdates(a + b) == DigestUpdates(a) + DigestUpdates(b)
  {
    if a == [] {
      assert a + b == b;
    } else {
      assert (a + b)[1..] == a[1..] + b;
      UpdatesConcat(a[1..], b);
    }
  }

  lemma OneMessage(p: Plane, m: StreamMessage, cfg: Config, ds: seq<Digest>)
    requires Carries(m, cfg.digestId, ds) && Handle(p, m, cfg).Some?
    ensures Handle(p, m, cfg).value.switch == WriteAll(p.switch, DigestUpdates(ds))
  {
    hide Encodes;
    if m.DigestMessage? && m.digestId == cfg.digestId {
      DecodesDigests(m.data, ds);
    }
  }

  lemma {:induction false} StreamWrites(p: Plane, ms: seq<StreamMessage>, cfg: Config, dss: seq<seq<Digest>>)
    requires AllCarry(ms, cfg.digestId, dss) && HandleAll(p, [ArbitrationUpdate(0)] + ms, cfg).Some?
    ensures HandleAll(p, [ArbitrationUpdate(0)] + ms, cfg).value.switch
         == WriteAll(INSTALLED, DigestUpdates(Flatten(dss)))
    decreases |ms|
  {
    hide Carries;
    var all := [ArbitrationUpdate(0)] + ms;
    if ms == [] {
      assert all[..0] == [] && all == [ArbitrationUpdate(0)];
      assert HandleAll(p, all[..0], cfg) == Some(p);
    } else {
      hide Handle;
      var n := |ms| - 1;
      assert all[..|all| - 1] == [ArbitrationUpdate(0)] + ms[..n];
      StreamWrites(p, ms[..n], cfg, dss[..n]);
      OneMessage(HandleAll(p, [ArbitrationUpdate(0)] + ms[..n], cfg).value, ms[n], cfg, dss[n]);
      UpdatesConcat(Flatten(dss[..n]), dss[n]);
      WriteConcat(INSTALLED, DigestUpdates(Flatten(dss[..n])), DigestUpdates(dss[n]));
    }
  }

  /** After a won election and any stream without another one: an address is learned if and only if it is the broadcast
      address or the source of some digest with fewer than 1024 different addresses before it, the broadcast address
      counted; it is forwarded if and only if it is such a source with fewer than 1024 different sources before it, and
      then to the port of its first digest. */
  lemma StreamLearns(p: Plane, ms: seq<StreamMessage>, cfg: Config, dss: seq<seq<Digest>>, m: u48)
    requires AllCarry(ms, cfg.digestId, dss) && HandleAll(p, [ArbitrationUpdate(0)] + ms, cfg).Some?
    ensures var sw := HandleAll(p, [ArbitrationUpdate(0)] + ms, cfg).value.switch;
      var ds := Flatten(dss);
      var before := Distinct(Before(Macs(ds), m));
      && (m in sw.learn <==> m == BROADCAST || (m in Macs(ds) && |{BROADCAST} + before| < 1024))
      && (m in sw.forward <==> m in Macs(ds) && |before| < 1024)
      && (m in sw.forward ==> FirstPort(ds, m) == Some(sw.forward[m]))
  {
    hide HandleAll;
    hide AllCarry;
    hide Learned;
    hide WriteAll;
    hide Distinct;
    hide Before;
    StreamWrites(p, ms, cfg, dss);
    DigestsLearned(Flatten(dss));
    LearnedOf(WriteAll(INSTALLED, DigestUpdates(Flatten(dss))), Flatten(dss), m);
  }

  lemma LearnedOf(sw: Switch, ds: seq<Digest>, m: u48)
    requires Learned(sw, ds)
    ensures var before := Distinct(Before(Macs(ds), m));
      && (m in sw.learn <==> m == BROADCAST || (m in Macs(ds) && |{BROADCAST} + before| < 1024))
      && (m in sw.forward <==> m in Macs(ds) && |before| < 1024)
      && (m in sw.forward ==> FirstPort(ds, m) == Some(sw.forward[m]))
  {
    hide Distinct;
    hide Before;
    var before := Distinct(Before(Macs(ds), m));
    assert {} + before == before;
    assert m in sw.forward <==> m in sw.forward.Keys;
  }

  /** A digest list of our own that holds something else than a struct of two members ends the program. */
  lemma BadDigestEnds(p: Plane, data: seq<DigestData>, cfg: Config, i: nat)
    requires i < |data| && (data[i].NotAStruct? || |data[i].members| != 2)
    ensures Handle(p, DigestMessage(cfg.digestId, data), cfg) == None
  {
    NoUpdates(data, i);
  }

  /** A digest with any two byte strings: the low 48 bits of the first are learned, and forwarded to the low 16 bits of
      the second if that is a port at all. */
  lemma AnyDigest(p: Plane, a: seq<byte>, b: seq<byte>, cfg: Config)
    ensures var sw, m, q := p.switch, NatOf(a) % 0x1_0000_0000_0000, NatOf(b) % 0x1_0000;
      Handle(p, DigestMessage(cfg.digestId, [Struct([a, b])]), cfg)
        == Some(p.(switch := sw.(
             learn := if m !in sw.learn && |sw.learn| < 1024 then sw.learn + {m} else sw.learn,
             forward := if m !in sw.forward && |sw.forward| < 1024 && q < 512 then sw.forward[m := q]
                        else sw.forward)))
  {
    hide NatOf;
    hide Resize;
    ResizeValue(6, a);
    ResizeValue(2, b);
    Pow256Values();
    var m, q := NatOf(a) % 0x1_0000_0000_0000, NatOf(b) % 0x1_0000;
    OneUpdate(Struct([a, b]), m, q);
    hide DigestOf;
    hide UpdatesOf;
    WriteLast(p.switch, [], InsertLearn(m));
    WriteLast(p.switch, [InsertLearn(m)], InsertForward(m, q));
    assert [InsertLearn(m)] + [InsertForward(m, q)] == [InsertLearn(m), InsertForward(m, q)];
    assert [] + [InsertLearn(m)] == [InsertLearn(m)];
  }

  lemma ResizeValue(n: nat, b: seq<byte>)
    ensures NatOf(Resize(n, b)) == NatOf(b) % Pow256(n)
  {
    hide *;
    ReencodeResizes(n, b);
    NatOfBytesOf(n, NatOf(b));
  }

  lemma OneUpdate(d: DigestData, m: u48, q: u16)
    requires DigestOf(d) == Some((m, q))
    ensures UpdatesOf([d]) == Some([InsertLearn(m), InsertForward(m, q)])
  {
    hide DigestOf;
    assert [d][..0] == [];
    assert UpdatesOf([]) == Some([]);
    assert [] + [InsertLearn(m), InsertForward(m, q)] == [InsertLearn(m), InsertForward(m, q)];
  }
}
