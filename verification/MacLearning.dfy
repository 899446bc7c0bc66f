/** MAC learning as a protocol: frames, digests in flight, writes applied one by one and changes of the primary
    controller interleave in any order (mac_learn.cpp, control_plane.cpp, l2_switch.p4). */
module MacLearning {
  import opened Bits
  import opened L2

  datatype Message = Arbitration(elected: bool) | DigestList(digests: seq<Digest>)

  /** What the controller still has to ask of the switch before it reads its next message. */
  datatype Op = Reset | Write(update: Update)

  /** primary: the switch accepts this controller's writes and sends it digests. */
  datatype State = State(switch: Switch, primary: bool, wire: seq<Message>, todo: seq<Op>)

  datatype Event =
    | Frame(src: u48, dst: u48, ingressPort: u9)
    | Elect                      // this controller becomes, or is confirmed as, the primary
    | Lose                       // another controller becomes the primary
    | Foreign(switch: Switch)    // the other primary writes the tables
    | Receive(at: nat)           // messages may overtake each other
    | Drop(at: nat)              // a digest list is lost
    | Execute(late: bool)        // late: a request accepted before the loss of the primary role still completes

  function Writes(us: seq<Update>): (ops: seq<Op>)
    ensures |ops| == |us| && forall i :: 0 <= i < |us| ==> ops[i] == Write(us[i])
  {
    seq(|us|, i requires 0 <= i < |us| => Write(us[i]))
  }

  function Installation(): seq<Op> {
    [Reset] + Writes(SetupUpdates())
  }

  predicate Enabled(s: State, e: Event) {
    match e
    case Frame(_, _, _) => true
    case Elect => true
    case Lose => s.primary
    case Foreign(sw) => !s.primary && Fits(sw)
    case Receive(at) => s.todo == [] && at < |s.wire|
    case Drop(at) => at < |s.wire| && s.wire[at].DigestList?
    case Execute(_) => s.todo != []
  }

  function Without(wire: seq<Message>, at: nat): seq<Message>
    requires at < |wire|
  {
    wire[..at] + wire[at + 1..]
  }

  function Effect(sw: Switch, op: Op): Switch {
    match op
    case Reset => EMPTY
    case Write(u) => Apply(sw, u)
  }

  function Reaction(m: Message): seq<Op> {
    match m
    case Arbitration(elected) => if elected then Installation() else []
    case DigestList(ds) => Writes(DigestUpdates(ds))
  }

  predicate Emits(s: State, e: Event) {
    e.Frame? && s.primary && SendsDigest(s.switch, e.src)
  }

  function Next(s: State, e: Event): State {
    if !Enabled(s, e) then s else
    match e
    case Frame(src, _, p) => if Emits(s, e) then s.(wire := s.wire + [DigestList([Digest(src, p)])]) else s
    case Elect => s.(primary := true, wire := s.wire + [Arbitration(true)])
    case Lose => s.(primary := false, wire := s.wire + [Arbitration(false)])
    case Foreign(sw) => s.(switch := sw)
    case Receive(at) => s.(wire := Without(s.wire, at), todo := Reaction(s.wire[at]))
    case Drop(at) => s.(wire := Without(s.wire, at))
    case Execute(late) =>
      s.(todo := s.todo[1..], switch := if s.primary || late then Effect(s.switch, s.todo[0]) else s.switch)
  }

  /** Before the controller connects, the tables may hold anything that fits. */
  predicate Initial(s: State) {
    Fits(s.switch) && !s.primary && s.wire == [] && s.todo == []
  }

  function Run(s: State, es: seq<Event>): State {
    if es == [] then s else Next(Run(s, es[..|es| - 1]), es[|es| - 1])
  }

  //////////////////////////////////////////////////////////////////////
  // The invariant
  //////////////////////////////////////////////////////////////////////

  /** What is known about sources: whether the broadcast address is none of them, and the one port each host stays
      on. */
  datatype Truth = Truth(noBroadcast: bool, hosts: Option<map<u48, u9>>)

  const ANY_SOURCES := Truth(false, None)
  const NO_BROADCAST_SOURCES := Truth(true, None)

  predicate True(d: Digest, truth: Truth) {
    && (truth.noBroadcast ==> d.mac != BROADCAST)
    && (truth.hosts.Some? ==> d.mac in truth.hosts.value && d.port == truth.hosts.value[d.mac])
  }

  predicate TrueMessage(m: Message, truth: Truth) {
    m.DigestList? ==> forall i :: 0 <= i < |m.digests| ==> True(m.digests[i], truth)
  }

  /** Pairs of inserts for true digests. */
  predicate Pairs(todo: seq<Op>, truth: Truth)
    decreases |todo|
  {
    todo == []
    || (|todo| >= 2 && todo[0].Write? && todo[0].update.InsertLearn? && Second(todo[1], todo[0].update.mac, truth)
        && Pairs(todo[2..], truth))
  }

  /** The insert into the forward table that follows the one into the learn table. */
  predicate Second(op: Op, mac: u48, truth: Truth) {
    op.Write? && op.update.InsertForward? && op.update.fmac == mac && op.update.port < 512
    && True(Digest(mac, op.update.port), truth)
  }

  /** Between the two inserts of a digest. */
  predicate HalfWay(todo: seq<Op>, truth: Truth) {
    todo != [] && todo[0].Write? && todo[0].update.InsertForward? && Second(todo[0], todo[0].update.fmac, truth)
    && Pairs(todo[1..], truth)
  }

  /** j of the installation's inserts are done. */
  predicate InstallTail(todo: seq<Op>, j: nat) {
    j <= |SetupUpdates()| && todo == Writes(SetupUpdates()[j..])
  }

  ghost predicate TodoShape(todo: seq<Op>, truth: Truth) {
    || todo == Installation()
    || (exists j :: InstallTail(todo, j))
    || Pairs(todo, truth)
    || HalfWay(todo, truth)
  }

  /** The MAC address whose learn entry may still lack its forward entry. */
  function Pending(todo: seq<Op>): set<u48> {
    if todo != [] && todo[0].Write? && todo[0].update.InsertForward? then {todo[0].update.fmac} else {}
  }

  /** The tables of an installed switch, while the controller learns. */
  predicate Agreement(sw: Switch, pending: set<u48>, truth: Truth) {
    && sw.digest && sw.groups == FloodGroups(NUM_SWITCH_PORTS)
    && BROADCAST in sw.learn && (truth.noBroadcast ==> BROADCAST !in sw.forward)
    && (forall m :: m in sw.learn && m != BROADCAST && m !in pending ==> m in sw.forward)
    && (forall m :: m in sw.forward && m !in sw.learn ==> |sw.learn| == TABLE_SIZE)
    && (forall m :: m in pending && m !in sw.learn ==> |sw.learn| == TABLE_SIZE)
    && (forall m, k :: m in pending && m != BROADCAST && m in sw.learn && m !in sw.forward && k in sw.forward ==>
          k in sw.learn)
    && (truth.hosts.Some? ==>
          forall m :: m in sw.forward ==> m in truth.hosts.value && sw.forward[m] == truth.hosts.value[m])
  }

  predicate Installing(s: State, j: nat) {
    InstallTail(s.todo, j) && s.switch == WriteAll(EMPTY, SetupUpdates()[..j])
  }

  ghost predicate Phase(s: State, truth: Truth) {
    || s.todo == Installation()
    || (exists j: nat :: Installing(s, j))
    || ((Pairs(s.todo, truth) || HalfWay(s.todo, truth)) && Agreement(s.switch, Pending(s.todo), truth))
  }

  /** No election that the controller has yet to handle. */
  predicate Settled(s: State) {
    s.primary && Arbitration(true) !in s.wire
  }

  ghost predicate Inv(s: State, truth: Truth) {
    && Fits(s.switch)
    && (forall i :: 0 <= i < |s.wire| ==> TrueMessage(s.wire[i], truth))
    && TodoShape(s.todo, truth)
    && (Settled(s) ==> Phase(s, truth))
  }

  //////////////////////////////////////////////////////////////////////
  // Every step keeps it
  //////////////////////////////////////////////////////////////////////

  lemma InstalledAgrees(truth: Truth)
    ensures Agreement(INSTALLED, {}, truth)
  {
  }

  lemma {:induction false} DigestPairs(ds: seq<Digest>, truth: Truth)
    requires forall i :: 0 <= i < |ds| ==> True(ds[i], truth)
    ensures Pairs(Writes(DigestUpdates(ds)), truth)
  {
    if ds != [] {
      DigestPairs(ds[1..], truth);
      assert Writes(DigestUpdates(ds))[2..] == Writes(DigestUpdates(ds[1..]));
    }
  }

  /** What is left after one operation still has one of the shapes. */
  lemma TodoStep(todo: seq<Op>, truth: Truth)
    requires TodoShape(todo, truth) && todo != []
    ensures TodoShape(todo[1..], truth)
  {
    if todo == Installation() {
      InstallStarts();
    } else if j :| InstallTail(todo, j) {
      InstallAdvances(todo, j);
    } else if Pairs(todo, truth) {
      PairsAdvance(todo, truth);
    }
  }

  lemma InstallStarts()
    ensures InstallTail(Installation()[1..], 0)
  {
    assert SetupUpdates()[0..] == SetupUpdates();
  }

  lemma InstallAdvances(todo: seq<Op>, j: nat)
    requires InstallTail(todo, j) && todo != []
    ensures j < |SetupUpdates()| && todo[0] == Write(SetupUpdates()[j]) && InstallTail(todo[1..], j + 1)
    ensures WriteAll(EMPTY, SetupUpdates()[..j + 1]) == Apply(WriteAll(EMPTY, SetupUpdates()[..j]), SetupUpdates()[j])
  {
    hide SetupUpdates;
    hide Apply;
    var us := SetupUpdates();
    assert us[j..][1..] == us[j + 1..];
    assert us[..j + 1][..j] == us[..j];
  }

  lemma PairsAdvance(todo: seq<Op>, truth: Truth)
    requires Pairs(todo, truth) && todo != []
    ensures HalfWay(todo[1..], truth)
  {
    assert todo[1..][1..] == todo[2..];
  }

  lemma PhaseStep(s: State, late: bool, truth: Truth)
    requires Phase(s, truth) && s.primary && s.todo != [] && Fits(s.switch)
    ensures Phase(Next(s, Execute(late)), truth)
  {
    hide Agreement;
    hide Installing;
    hide Installation;
    hide Pairs;
    hide HalfWay;
    hide Next;
    if s.todo == Installation() {
      ResetStep(s, late);
    } else if j: nat :| Installing(s, j) {
      SetupStep(s, late, j);
    } else {
      LearningStep(s, late, truth);
    }
  }

  lemma LearningStep(s: State, late: bool, truth: Truth)
    requires (Pairs(s.todo, truth) || HalfWay(s.todo, truth)) && Agreement(s.switch, Pending(s.todo), truth)
    requires s.primary && s.todo != [] && Fits(s.switch)
    ensures var s' := Next(s, Execute(late));
      (Pairs(s'.todo, truth) || HalfWay(s'.todo, truth)) && Agreement(s'.switch, Pending(s'.todo), truth)
  {
    hide Agreement;
    hide Apply;
    if Pairs(s.todo, truth) {
      PairsAdvance(s.todo, truth);
      LearnStep(s.switch, s.todo[0].update.mac, truth);
    } else {
      PairsPendNothing(s.todo[1..], truth);
      ForwardStep(s.switch, s.todo[0].update, truth);
    }
  }

  lemma ResetStep(s: State, late: bool)
    requires s.todo == Installation() && s.primary
    ensures Installing(Next(s, Execute(late)), 0)
  {
    hide InstallTail;
    hide SetupUpdates;
    InstallStarts();
  }

  lemma SetupStep(s: State, late: bool, j: nat)
    requires Installing(s, j) && s.primary && s.todo != []
    ensures Installing(Next(s, Execute(late)), j + 1)
  {
    hide Apply;
    hide InstallTail;
    hide WriteAll;
    hide SetupUpdates;
    InstallAdvances(s.todo, j);
  }

  lemma LearnStep(sw: Switch, mac: u48, truth: Truth)
    requires Fits(sw) && Agreement(sw, {}, truth)
    ensures Agreement(Apply(sw, InsertLearn(mac)), {mac}, truth)
  {
  }

  lemma ForwardStep(sw: Switch, u: Update, truth: Truth)
    requires Fits(sw) && u.InsertForward? && u.port < 512 && True(Digest(u.fmac, u.port), truth)
    requires Agreement(sw, {u.fmac}, truth)
    ensures Agreement(Apply(sw, u), {}, truth)
  {
    if u.fmac in sw.learn && u.fmac !in sw.forward && u.fmac != BROADCAST {
      RoomToForward(sw, u.fmac, truth);
    }
  }

  /** A newly learned address always finds room in the forward table: whatever it holds is learned as well. */
  lemma RoomToForward(sw: Switch, mac: u48, truth: Truth)
    requires Fits(sw) && Agreement(sw, {mac}, truth) && mac in sw.learn && mac !in sw.forward && mac != BROADCAST
    ensures |sw.forward| < TABLE_SIZE
  {
    var others := sw.learn - {mac};
    assert sw.forward.Keys <= others;
    hide Agreement;
    Subset(sw.forward.Keys, others);
  }

  lemma {:induction false} Subset(a: set<u48>, b: set<u48>)
    requires a <= b
    ensures |a| <= |b|
  {
    if a != {} {
      var x :| x in a;
      Subset(a - {x}, b - {x});
    }
  }

  //////////////////////////////////////////////////////////////////////
  // All steps
  //////////////////////////////////////////////////////////////////////

  lemma WireStep(s: State, e: Event, truth: Truth)
    requires forall i :: 0 <= i < |s.wire| ==> TrueMessage(s.wire[i], truth)
    requires Emits(s, e) ==> True(Digest(e.src, e.ingressPort), truth)
    ensures forall i :: 0 <= i < |Next(s, e).wire| ==> TrueMessage(Next(s, e).wire[i], truth)
  {
    hide True;
    hide Reaction;
    hide Effect;
    hide SendsDigest;
  }

  /** An election stays on the wire until it is handled. */
  lemma ElectionStays(s: State, e: Event)
    requires Enabled(s, e) && !(e.Receive? && s.wire[e.at] == Arbitration(true))
    requires Arbitration(true) in s.wire || e.Elect?
    ensures Arbitration(true) in Next(s, e).wire
  {
    hide Reaction;
    hide Effect;
    hide SendsDigest;
    var s' := Next(s, e);
    if e.Elect? {
      assert s'.wire[|s.wire|] == Arbitration(true);
    } else {
      var i :| 0 <= i < |s.wire| && s.wire[i] == Arbitration(true);
      if (e.Receive? || e.Drop?) && i > e.at {
        assert s'.wire[i - 1] == Arbitration(true);
      } else {
        assert s'.wire[i] == Arbitration(true);
      }
    }
  }

  /** A state is settled because the one before was, or because the election has just been handled. */
  lemma SettledBefore(s: State, e: Event)
    requires Settled(Next(s, e)) && Enabled(s, e)
    ensures Settled(s) || (e.Receive? && s.primary && s.wire[e.at] == Arbitration(true))
    ensures !e.Foreign? && !e.Elect? && !e.Lose?
  {
    hide Reaction;
    hide Effect;
    hide SendsDigest;
    if !(e.Receive? && s.wire[e.at] == Arbitration(true)) && (Arbitration(true) in s.wire || e.Elect?) {
      ElectionStays(s, e);
    }
  }

  lemma StepKeeps(s: State, e: Event, truth: Truth)
    requires Inv(s, truth) && (Emits(s, e) ==> True(Digest(e.src, e.ingressPort), truth))
    ensures Inv(Next(s, e), truth)
  {
    hide True;
    hide TrueMessage;
    hide Phase;
    hide Settled;
    hide Effect;
    hide Reaction;
    hide TodoShape;
    hide Without;
    WireStep(s, e, truth);
    if Enabled(s, e) {
      if e.Execute? {
        ExecuteKeeps(s, e.late, truth);
      } else if e.Receive? {
        ReceiveKeeps(s, e.at, truth);
      } else {
        OthersKeep(s, e, truth);
      }
    }
  }

  lemma ExecuteKeeps(s: State, late: bool, truth: Truth)
    requires Inv(s, truth) && s.todo != []
    ensures var s' := Next(s, Execute(late));
      Fits(s'.switch) && TodoShape(s'.todo, truth) && (Settled(s') ==> Phase(s', truth))
  {
    hide Phase;
    hide TodoShape;
    hide Effect;
    TodoStep(s.todo, truth);
    EffectFits(s.switch, s.todo[0]);
    if Settled(s) {
      PhaseStep(s, late, truth);
    }
  }

  lemma OthersKeep(s: State, e: Event, truth: Truth)
    requires Inv(s, truth) && Enabled(s, e) && !e.Execute? && !e.Receive?
    ensures var s' := Next(s, e);
      Fits(s'.switch) && TodoShape(s'.todo, truth) && (Settled(s') ==> Phase(s', truth))
  {
    hide TodoShape;
    hide InstallTail;
    hide Pairs;
    hide HalfWay;
    hide Agreement;
    if Settled(Next(s, e)) {
      SettledBefore(s, e);
      assert Phase(s, truth);
      SamePhase(s, Next(s, e), truth);
    }
  }

  lemma SamePhase(s: State, s': State, truth: Truth)
    requires Phase(s, truth) && s'.todo == s.todo && s'.switch == s.switch
    ensures Phase(s', truth)
  {
    hide InstallTail;
    hide Pairs;
    hide HalfWay;
    hide Agreement;
    if j: nat :| Installing(s, j) {
      assert Installing(s', j);
    }
  }

  lemma EffectFits(sw: Switch, op: Op)
    requires Fits(sw)
    ensures Fits(Effect(sw, op))
  {
  }

  lemma ReceiveKeeps(s: State, at: nat, truth: Truth)
    requires Inv(s, truth) && s.todo == [] && at < |s.wire|
    ensures TodoShape(Next(s, Receive(at)).todo, truth)
    ensures Settled(Next(s, Receive(at))) ==> Phase(Next(s, Receive(at)), truth)
  {
    hide Phase;
    hide Agreement;
    hide Reaction;
    hide TodoShape;
    hide Pairs;
    hide Installation;
    var s' := Next(s, Receive(at));
    assert TrueMessage(s.wire[at], truth);
    ReactionShape(s.wire[at], truth);
    if s.wire[at] == Arbitration(true) {
      ElectedPhase(s', truth);
    } else if Settled(s') {
      SettledBefore(s, Receive(at));
      IdleAgrees(s, truth);
      PairsPhase(s', truth);
    }
  }

  lemma ReactionShape(m: Message, truth: Truth)
    requires TrueMessage(m, truth)
    ensures TodoShape(Reaction(m), truth)
    ensures if m == Arbitration(true) then Reaction(m) == Installation() else Pairs(Reaction(m), truth)
  {
    hide True;
    hide Installation;
    if m.DigestList? {
      DigestPairs(m.digests, truth);
    }
  }

  lemma ElectedPhase(s: State, truth: Truth)
    requires s.todo == Installation()
    ensures Phase(s, truth)
  {
  }

  lemma PairsPhase(s: State, truth: Truth)
    requires Pairs(s.todo, truth) && Agreement(s.switch, {}, truth)
    ensures Phase(s, truth)
  {
    hide Agreement;
    PairsPendNothing(s.todo, truth);
  }

  lemma PairsPendNothing(todo: seq<Op>, truth: Truth)
    requires Pairs(todo, truth)
    ensures Pending(todo) == {}
  {
  }

  /** Between messages a settled switch is fully installed. */
  lemma IdleAgrees(s: State, truth: Truth)
    requires Phase(s, truth) && s.todo == []
    ensures Agreement(s.switch, {}, truth)
  {
    if j: nat :| Installing(s, j) {
      assert SetupUpdates()[..j] == SetupUpdates();
      SetupInstalls();
      InstalledAgrees(truth);
    }
  }

  //////////////////////////////////////////////////////////////////////
  // All runs
  //////////////////////////////////////////////////////////////////////

  predicate TrueFrames(es: seq<Event>, truth: Truth) {
    forall i :: 0 <= i < |es| && es[i].Frame? ==> True(Digest(es[i].src, es[i].ingressPort), truth)
  }

  lemma {:induction false} RunKeeps(s: State, es: seq<Event>, truth: Truth)
    requires Initial(s) && TrueFrames(es, truth)
    ensures Inv(Run(s, es), truth)
  {
    hide True;
    hide Next;
    hide Installing;
    if es == [] {
      assert Pairs(s.todo, truth);
    } else {
      var n := |es| - 1;
      RunKeeps(s, es[..n], truth);
      if Emits(Run(s, es[..n]), es[n]) {
        assert es[n].Frame?;
      }
      StepKeeps(Run(s, es[..n]), es[n], truth);
    }
  }

  /** The primary role is never lost, and nobody else writes the tables. */
  predicate Calm(es: seq<Event>) {
    forall i :: 0 <= i < |es| ==> !es[i].Lose? && !es[i].Foreign?
  }

  /** In a calm run the broadcast entry is written before digests are, and both go together. */
  ghost predicate CalmInv(s: State) {
    && (s.switch.digest ==> BROADCAST in s.switch.learn)
    && (s.primary || (s.wire == [] && s.todo == []))
    && (s.todo == Installation() || Pairs(s.todo, NO_BROADCAST_SOURCES) || HalfWay(s.todo, NO_BROADCAST_SOURCES)
        || exists j: nat :: Installing(s, j))
  }

  lemma CalmStep(s: State, e: Event)
    requires Inv(s, NO_BROADCAST_SOURCES) && CalmInv(s) && !e.Lose? && !e.Foreign?
    ensures CalmInv(Next(s, e)) && (Emits(s, e) ==> e.src != BROADCAST)
  {
    hide Fits;
    hide Installation;
    if Enabled(s, e) {
      if e.Execute? {
        CalmExecute(s, e.late);
      } else if e.Receive? {
        assert TrueMessage(s.wire[e.at], NO_BROADCAST_SOURCES);
        if s.wire[e.at].DigestList? {
          DigestPairs(s.wire[e.at].digests, NO_BROADCAST_SOURCES);
        }
      } else if j: nat :| Installing(s, j) {
        assert Installing(Next(s, e), j);
      }
    }
  }

  lemma CalmExecute(s: State, late: bool)
    requires CalmInv(s) && s.todo != []
    ensures CalmInv(Next(s, Execute(late)))
  {
    hide Installing;
    hide Installation;
    hide WriteAll;
    if s.todo == Installation() {
      ResetStep(s, late);
      DigestComesLast(Next(s, Execute(late)), 0);
    } else if j: nat :| Installing(s, j) {
      SetupStep(s, late, j);
      DigestComesLast(Next(s, Execute(late)), j + 1);
    } else if Pairs(s.todo, NO_BROADCAST_SOURCES) {
      PairsAdvance(s.todo, NO_BROADCAST_SOURCES);
    }
  }

  lemma DigestComesLast(s: State, j: nat)
    requires Installing(s, j)
    ensures s.switch.digest ==> BROADCAST in s.switch.learn
  {
    if j <= NUM_SWITCH_PORTS {
      GroupsOnly(j);
    } else {
      SetupInstalls();
      assert SetupUpdates()[..NUM_SWITCH_PORTS + 2] == SetupUpdates();
    }
  }

  lemma {:induction false} CalmRun(s: State, es: seq<Event>)
    requires Initial(s) && s.switch == EMPTY && Calm(es)
    ensures Inv(Run(s, es), NO_BROADCAST_SOURCES) && CalmInv(Run(s, es))
  {
    hide Next;
    hide Installing;
    hide Emits;
    if es == [] {
      assert Pairs(s.todo, NO_BROADCAST_SOURCES);
    } else {
      var n := |es| - 1;
      CalmRun(s, es[..n]);
      CalmStep(Run(s, es[..n]), es[n]);
      hide CalmInv;
      hide Inv;
      StepKeeps(Run(s, es[..n]), es[n], NO_BROADCAST_SOURCES);
    }
  }

  /** Installation is over: every installation ends with the digest configuration. */
  predicate Ready(s: State) {
    Settled(s) && (s.todo == [] || s.todo[|s.todo| - 1] != Write(InsertDigest))
  }

  lemma ReadyAgrees(s: State, truth: Truth)
    requires Inv(s, truth) && Ready(s)
    ensures Agreement(s.switch, Pending(s.todo), truth)
  {
    hide Agreement;
    assert Phase(s, truth);
    if s.todo == [] {
      IdleAgrees(s, truth);
    } else if j: nat :| Installing(s, j) {
      InstallEndsWithDigest(s.todo, j);
    }
  }

  lemma InstallEndsWithDigest(todo: seq<Op>, j: nat)
    requires InstallTail(todo, j) && todo != []
    ensures todo[|todo| - 1] == Write(InsertDigest)
  {
  }

  /** At most one address can be forwarded without being learned, also between the two inserts of a digest. */
  lemma AtMostOneUnlearned(sw: Switch, todo: seq<Op>, truth: Truth)
    requires Fits(sw) && Agreement(sw, Pending(todo), truth)
    ensures |sw.forward.Keys - sw.learn| <= 1
  {
    var extra, known := sw.forward.Keys - sw.learn, sw.learn - {BROADCAST};
    if extra != {} {
      var m :| m in extra;
      assert |sw.learn| == TABLE_SIZE && |known| == TABLE_SIZE - 1;
      assert known <= sw.forward.Keys;
      assert known + extra <= sw.forward.Keys && known !! extra;
      Subset(known + extra, sw.forward.Keys);
    }
  }

  /** In every run, whatever interleaves and whatever sources there are: both tables stay within their size, and on
      every installed switch all learned addresses but the broadcast address are forwarded (save the one whose second
      insert is still to come), and at most one forwarded address is not learned. */
  lemma TableAgreement(s: State, es: seq<Event>)
    requires Initial(s)
    ensures var t := Run(s, es);
      && Fits(t.switch)
      && (Ready(t) ==>
            && BROADCAST in t.switch.learn
            && t.switch.learn - {BROADCAST} - Pending(t.todo) <= t.switch.forward.Keys
            && |t.switch.forward.Keys - t.switch.learn| <= 1)
  {
    hide Next;
    RunKeeps(s, es, ANY_SOURCES);
    var t := Run(s, es);
    if Ready(t) {
      ReadyAgrees(t, ANY_SOURCES);
      AtMostOneUnlearned(t.switch, t.todo, ANY_SOURCES);
    }
  }

  /** Flooding on a switch with all groups. */
  lemma FloodedOnce(sw: Switch, dst: u48, ingressPort: u9, p: u9)
    requires sw.groups == FloodGroups(NUM_SWITCH_PORTS) && dst !in sw.forward && ingressPort < NUM_SWITCH_PORTS
    ensures multiset(Egress(sw, dst, ingressPort))[p] == if p < NUM_SWITCH_PORTS && p != ingressPort then 1 else 0
  {
    FloodReachesEachOnce(NUM_SWITCH_PORTS, ingressPort, p);
    hide Flood;
    hide Ports;
    assert FloodGroup(ingressPort) == ingressPort + 1;
  }

  /** In every run: on an installed switch a broadcast frame reaches each of the other ports exactly once, and no other,
      if and only if the broadcast address is not in the forward table. */
  lemma BroadcastDelivery(s: State, es: seq<Event>, ingressPort: u9)
    requires Initial(s) && Ready(Run(s, es)) && ingressPort < NUM_SWITCH_PORTS
    ensures var sw := Run(s, es).switch;
      (forall p: u9 :: multiset(Egress(sw, BROADCAST, ingressPort))[p]
                       == if p < NUM_SWITCH_PORTS && p != ingressPort then 1 else 0)
      <==> BROADCAST !in sw.forward
  {
    RunKeeps(s, es, ANY_SOURCES);
    ReadyAgrees(Run(s, es), ANY_SOURCES);
    var sw := Run(s, es).switch;
    hide Run;
    if BROADCAST in sw.forward {
      var p: u9 := if ingressPort <= 1 then if sw.forward[BROADCAST] == 2 then 3 else 2
                   else if sw.forward[BROADCAST] == 0 then 1 else 0;
      assert multiset(Egress(sw, BROADCAST, ingressPort))[p] == 0;
    } else {
      forall p: u9
        ensures multiset(Egress(sw, BROADCAST, ingressPort))[p]
             == if p < NUM_SWITCH_PORTS && p != ingressPort then 1 else 0
      {
        FloodedOnce(sw, BROADCAST, ingressPort, p);
      }
    }
  }

  /** If every host stays on one port, then on an installed switch a frame for a host on another port reaches that
      port exactly once, and reaches nothing else once the host's address is in the forward table. */
  lemma Delivery(s: State, es: seq<Event>, hosts: map<u48, u9>, dst: u48, ingressPort: u9)
    requires Initial(s) && TrueFrames(es, Truth(false, Some(hosts))) && Ready(Run(s, es))
    requires dst in hosts && hosts[dst] < NUM_SWITCH_PORTS
    requires ingressPort < NUM_SWITCH_PORTS && ingressPort != hosts[dst]
    ensures var sw := Run(s, es).switch;
      && multiset(Egress(sw, dst, ingressPort))[hosts[dst]] == 1
      && (dst in sw.forward ==> Egress(sw, dst, ingressPort) == [hosts[dst]])
  {
    hide Next;
    hide True;
    hide Run;
    hide Flood;
    hide FloodGroups;
    RunKeeps(s, es, Truth(false, Some(hosts)));
    ReadyAgrees(Run(s, es), Truth(false, Some(hosts)));
    if dst !in Run(s, es).switch.forward {
      FloodedOnce(Run(s, es).switch, dst, ingressPort, hosts[dst]);
    }
  }

  /** No pipeline reset is executed and nobody else writes. */
  predicate NoReset(s: State, es: seq<Event>) {
    es == [] || (NoReset(s, es[..|es| - 1]) && !es[|es| - 1].Foreign?
                 && !(es[|es| - 1].Execute? && Run(s, es[..|es| - 1]).todo != []
                      && Run(s, es[..|es| - 1]).todo[0] == Reset))
  }

  predicate Extends(a: Switch, b: Switch) {
    a.learn <= b.learn && forall m :: m in a.forward ==> m in b.forward && b.forward[m] == a.forward[m]
  }

  /** From any state, entries neither go away nor change until the next pipeline reset: a host that moves keeps its
      old port. */
  lemma {:induction false} EntriesStay(s: State, es: seq<Event>)
    requires NoReset(s, es)
    ensures Extends(s.switch, Run(s, es).switch)
  {
    if es != [] {
      EntriesStay(s, es[..|es| - 1]);
      StepExtends(Run(s, es[..|es| - 1]), es[|es| - 1]);
    }
  }

  lemma StepExtends(s: State, e: Event)
    requires !e.Foreign? && !(e.Execute? && s.todo != [] && s.todo[0] == Reset)
    ensures Extends(s.switch, Next(s, e).switch)
  {
    hide Reaction;
    hide Without;
  }

  //////////////////////////////////////////////////////////////////////
  // Undisturbed handling
  //////////////////////////////////////////////////////////////////////

  function Executes(n: nat): (es: seq<Event>)
    ensures |es| == n && forall i :: 0 <= i < n ==> es[i] == Execute(false)
  {
    seq(n, i => Execute(false))
  }

  /** Without interference the operations of one message have the effect of the controller's write request as a
      whole. */
  lemma {:induction false} Undisturbed(s: State, us: seq<Update>, rest: seq<Op>)
    requires s.primary && s.todo == Writes(us) + rest
    ensures Run(s, Executes(|us|)) == s.(todo := rest, switch := WriteAll(s.switch, us))
  {
    hide Apply;
    hide Next;
    if us == [] {
      assert s.todo == rest;
    } else {
      var n := |us| - 1;
      WritesLast(us, rest);
      Undisturbed(s, us[..n], [Write(us[n])] + rest);
      assert Executes(n + 1)[..n] == Executes(n);
      ExecuteWrite(s.(todo := [Write(us[n])] + rest, switch := WriteAll(s.switch, us[..n])), us[n], rest);
    }
  }

  lemma WritesLast(us: seq<Update>, rest: seq<Op>)
    requires us != []
    ensures Writes(us) + rest == Writes(us[..|us| - 1]) + ([Write(us[|us| - 1])] + rest)
  {
  }

  lemma ExecuteWrite(s: State, u: Update, rest: seq<Op>)
    requires s.primary && s.todo == [Write(u)] + rest
    ensures Next(s, Execute(false)) == s.(todo := rest, switch := Apply(s.switch, u))
  {
    assert s.todo[1..] == rest;
  }

  lemma {:induction false} RunAppend(s: State, a: seq<Event>, b: seq<Event>)
    ensures Run(s, a + b) == Run(Run(s, a), b)
  {
    hide Next;
    if b == [] {
      assert a + b == a;
    } else {
      assert (a + b)[..|a + b| - 1] == a + b[..|b| - 1];
      RunAppend(s, a, b[..|b| - 1]);
    }
  }

  //////////////////////////////////////////////////////////////////////
  // Broadcast sources
  //////////////////////////////////////////////////////////////////////

  lemma RunLast(s: State, es: seq<Event>, t: State, e: Event)
    requires Run(s, es) == t
    ensures Run(s, es + [e]) == Next(t, e)
  {
    assert (es + [e])[..|es|] == es;
  }

  /** Handling an election undisturbed installs the tables, whatever they held. */
  lemma Reinstalls(s: State)
    requires s.primary && s.todo == Installation()
    ensures Run(s, [Execute(false)] + Executes(|SetupUpdates()|)) == s.(todo := [], switch := INSTALLED)
  {
    var us := SetupUpdates();
    var t := s.(todo := Writes(us), switch := EMPTY);
    RunLast(s, [], s, Execute(false));
    assert s.todo[1..] == Writes(us);
    assert [] + [Execute(false)] == [Execute(false)] && Writes(us) + [] == Writes(us);
    RunAppend(s, [Execute(false)], Executes(|us|));
    Undisturbed(t, us, []);
    SetupInstalls();
  }

  lemma RunTwo(s: State, e1: Event, e2: Event)
    ensures Run(s, [e1, e2]) == Next(Next(s, e1), e2)
  {
    hide Next;
    RunLast(s, [], s, e1);
    assert [] + [e1] == [e1] && [e1] + [e2] == [e1, e2];
    RunLast(s, [e1], Next(s, e1), e2);
  }

  lemma Elected(s: State)
    requires !s.primary && s.wire == [] && s.todo == []
    ensures Next(Next(s, Elect), Receive(0)) == State(s.switch, true, [], Installation())
  {
    hide Installation;
    assert Without([Arbitration(true)], 0) == [];
  }

  lemma WritesInTwo(a: seq<Update>, b: seq<Update>)
    ensures Writes(a + b) == Writes(a) + Writes(b)
  {
  }

  lemma ResetFirst(s: State)
    requires s.primary && s.todo == Installation()
    ensures Next(s, Execute(false)) == s.(switch := EMPTY, todo := Writes(SetupUpdates()))
  {
    hide SetupUpdates;
    assert s.todo[1..] == Writes(SetupUpdates());
  }

  /** Messages arrive in order, none is lost, and no request outlives the role. */
  predicate InOrder(es: seq<Event>) {
    forall i :: 0 <= i < |es| ==> (es[i].Receive? ==> es[i].at == 0) && !es[i].Drop? && es[i] != Execute(true)
  }

  predicate NoLoss(es: seq<Event>) {
    forall i :: 0 <= i < |es| ==> !es[i].Lose?
  }

  predicate NoForeign(es: seq<Event>) {
    forall i :: 0 <= i < |es| ==> !es[i].Foreign?
  }

  lemma Joined(a: seq<Event>, b: seq<Event>)
    ensures InOrder(a) && InOrder(b) ==> InOrder(a + b)
    ensures NoLoss(a) && NoLoss(b) ==> NoLoss(a + b)
    ensures NoForeign(a) && NoForeign(b) ==> NoForeign(a + b)
  {
  }

  /** Waiting for and handling messages takes no liberties. */
  lemma Harmless(n: nat)
    ensures InOrder(Executes(n)) && NoLoss(Executes(n)) && NoForeign(Executes(n))
    ensures InOrder([Receive(0)]) && NoLoss([Receive(0)]) && NoForeign([Receive(0)])
    ensures InOrder([Execute(false)]) && NoLoss([Execute(false)]) && NoForeign([Execute(false)])
  {
  }

  /** After the first election, up to the broadcast entry. */
  lemma FirstInstallation(s: State) returns (es: seq<Event>)
    requires Initial(s) && s.switch == EMPTY
    ensures Run(s, es) == State(EMPTY.(groups := FloodGroups(NUM_SWITCH_PORTS)), true, [],
                                Writes([InsertLearn(BROADCAST), InsertDigest]))
    ensures InOrder(es) && NoForeign(es)
  {
    var last := Writes([InsertLearn(BROADCAST), InsertDigest]);
    var groups := GroupUpdates(NUM_SWITCH_PORTS);
    GroupsInstalled(NUM_SWITCH_PORTS);
    WritesInTwo(groups, [InsertLearn(BROADCAST), InsertDigest]);
    assert SetupUpdates() == groups + [InsertLearn(BROADCAST), InsertDigest];
    var s1 := State(EMPTY, true, [], Installation());
    var s2 := State(EMPTY, true, [], Writes(groups) + last);
    Elected(s);
    ResetFirst(s1);
    hide *;
    RunTwo(s, Elect, Receive(0));
    RunLast(s, [Elect, Receive(0)], s1, Execute(false));
    Undisturbed(s2, groups, last);
    RunAppend(s, [Elect, Receive(0)] + [Execute(false)], Executes(NUM_SWITCH_PORTS));
    InstallingIsHarmless();
    es := [Elect, Receive(0)] + [Execute(false)] + Executes(NUM_SWITCH_PORTS);
  }

  lemma InstallingIsHarmless()
    ensures InOrder([Elect, Receive(0)] + [Execute(false)] + Executes(NUM_SWITCH_PORTS))
    ensures NoForeign([Elect, Receive(0)] + [Execute(false)] + Executes(NUM_SWITCH_PORTS))
  {
    assert InOrder([Elect, Receive(0)]) && NoForeign([Elect, Receive(0)]);
    hide *;
    Harmless(NUM_SWITCH_PORTS);
    Joined([Elect, Receive(0)], [Execute(false)]);
    Joined([Elect, Receive(0)] + [Execute(false)], Executes(NUM_SWITCH_PORTS));
  }

  /** The role is lost, the broadcast entry refused, the role regained and digests configured. */
  lemma Interruption(s: State) returns (es: seq<Event>, t: State)
    requires s.primary && s.wire == [] && s.todo == Writes([InsertLearn(BROADCAST), InsertDigest]) && !s.switch.digest
    ensures t == State(s.switch.(digest := true), true, [Arbitration(false), Arbitration(true)], [])
    ensures Run(s, es) == t && InOrder(es) && NoForeign(es)
  {
    hide Run;
    RunTwo(s, Lose, Execute(false));
    var s1 := State(s.switch, false, [Arbitration(false)], [Write(InsertDigest)]);
    assert Next(Next(s, Lose), Execute(false)) == s1;
    RunTwo(s1, Elect, Execute(false));
    t := State(s.switch.(digest := true), true, [Arbitration(false), Arbitration(true)], []);
    assert Next(Next(s1, Elect), Execute(false)) == t;
    RunAppend(s, [Lose, Execute(false)], [Elect, Execute(false)]);
    es := [Lose, Execute(false)] + [Elect, Execute(false)];
  }

  /** Digests are on without the broadcast entry, and an election is still to be handled. */
  predicate Exposed(s: State) {
    && s.primary && s.wire == [Arbitration(true)] && s.todo == []
    && s.switch.digest && BROADCAST !in s.switch.learn
  }

  /** A broadcast source is seen, the election is handled, and then the digest. */
  function StaleEvents(): seq<Event> {
    [Frame(BROADCAST, 1, 3), Receive(0)] + ([Execute(false)] + Executes(|SetupUpdates()|)) + [Receive(0)] + Executes(2)
  }

  lemma StaleDigest(s: State)
    requires Exposed(s)
    ensures Run(s, StaleEvents())
         == State(WriteAll(INSTALLED, [InsertLearn(BROADCAST), InsertForward(BROADCAST, 3)]), true, [], [])
  {
    var learned := [InsertLearn(BROADCAST), InsertForward(BROADCAST, 3)];
    var digest := DigestList([Digest(BROADCAST, 3)]);
    var s1 := State(s.switch, true, [digest], Installation());
    var s2 := State(INSTALLED, true, [digest], []);
    var s3 := State(INSTALLED, true, [], Writes(learned));
    assert s.primary && s.todo == [];
    hide Run;
    hide Next;
    hide WriteAll;
    hide SetupUpdates;
    hide Installation;
    hide FloodGroups;
    hide Exposed;
    hide Executes;
    DigestAndElection(s);
    ReceiveDigest(s2, Digest(BROADCAST, 3));
    assert Writes(learned) + [] == Writes(learned);
    hide Writes;
    var a := [Frame(BROADCAST, 1, 3), Receive(0)];
    var b := [Execute(false)] + Executes(|SetupUpdates()|);
    RunTwo(s, Frame(BROADCAST, 1, 3), Receive(0));
    Reinstalls(s1);
    RunAppend(s, a, b);
    RunLast(s, a + b, s2, Receive(0));
    Undisturbed(s3, learned, []);
    RunAppend(s, a + b + [Receive(0)], Executes(2));
  }

  lemma StaleEventsHarmless()
    ensures InOrder(StaleEvents()) && NoLoss(StaleEvents()) && NoForeign(StaleEvents())
  {
    hide InOrder;
    hide NoLoss;
    hide NoForeign;
    hide SetupUpdates;
    hide Executes;
    var a, n := [Frame(BROADCAST, 1, 3), Receive(0)], |SetupUpdates()|;
    FrameIsHarmless();
    Harmless(n);
    Harmless(2);
    Joined([Execute(false)], Executes(n));
    Joined(a, [Execute(false)] + Executes(n));
    Joined(a + ([Execute(false)] + Executes(n)), [Receive(0)]);
    Joined(a + ([Execute(false)] + Executes(n)) + [Receive(0)], Executes(2));
  }

  lemma FrameIsHarmless()
    ensures InOrder([Frame(BROADCAST, 1, 3), Receive(0)])
    ensures NoLoss([Frame(BROADCAST, 1, 3), Receive(0)]) && NoForeign([Frame(BROADCAST, 1, 3), Receive(0)])
  {
  }

  lemma DigestAndElection(s: State)
    requires Exposed(s)
    ensures Next(Next(s, Frame(BROADCAST, 1, 3)), Receive(0)) ==
            State(s.switch, true, [DigestList([Digest(BROADCAST, 3)])], Installation())
  {
    hide Installation;
    var digest := DigestList([Digest(BROADCAST, 3)]);
    assert s.wire + [digest] == [Arbitration(true), digest];
    assert Without([Arbitration(true), digest], 0) == [digest];
  }

  lemma ReceiveDigest(s: State, d: Digest)
    requires s.wire == [DigestList([d])] && s.todo == []
    ensures Next(s, Receive(0)) ==
            s.(wire := [], todo := Writes([InsertLearn(d.mac), InsertForward(d.mac, d.port)]))
  {
    assert DigestUpdates([d]) == [InsertLearn(d.mac), InsertForward(d.mac, d.port)];
    assert Without(s.wire, 0) == [];
  }

  lemma BroadcastForwarded()
    ensures BROADCAST in WriteAll(INSTALLED, [InsertLearn(BROADCAST), InsertForward(BROADCAST, 3)]).forward
  {
    hide FloodGroups;
    var us := [InsertLearn(BROADCAST), InsertForward(BROADCAST, 3)];
    assert us[..1] == [InsertLearn(BROADCAST)] && us[..1][..0] == [];
    assert WriteAll(INSTALLED, us[..1]) == INSTALLED;
    assert |INSTALLED.forward| == 0;
  }

  /** From there the broadcast address ends up in the forward table. */
  lemma ExposedFails(s: State, before: seq<Event>, t: State) returns (es: seq<Event>)
    requires Run(s, before) == t && Exposed(t)
    ensures Ready(Run(s, es)) && BROADCAST in Run(s, es).switch.forward
    ensures InOrder(before) ==> InOrder(es)
    ensures NoForeign(before) ==> NoForeign(es)
    ensures NoLoss(before) ==> NoLoss(es)
  {
    hide *;
    StaleDigest(t);
    StaleEventsHarmless();
    Joined(before, StaleEvents());
    RunAppend(s, before, StaleEvents());
    BroadcastForwarded();
    Finished(WriteAll(INSTALLED, [InsertLearn(BROADCAST), InsertForward(BROADCAST, 3)]));
    es := before + StaleEvents();
  }

  lemma Finished(sw: Switch)
    ensures Ready(State(sw, true, [], []))
  {
  }

  /** The role is lost in the middle of the installation: the insert of the broadcast entry is refused, the role comes
      back, and the digest configuration goes through. */
  lemma FailsAfterLoss() returns (s: State, es: seq<Event>)
    ensures Initial(s) && s.switch == EMPTY && InOrder(es) && NoForeign(es)
    ensures Ready(Run(s, es)) && BROADCAST in Run(s, es).switch.forward
  {
    s := State(EMPTY, false, [], []);
    var a := FirstInstallation(s);
    var b, t := Interruption(Run(s, a));
    assert Without([Arbitration(false), Arbitration(true)], 0) == [Arbitration(true)];
    assert Exposed(Next(t, Receive(0)));
    hide *;
    RunAppend(s, a, b);
    RunLast(s, a + b, t, Receive(0));
    Harmless(0);
    Joined(a, b);
    Joined(a + b, [Receive(0)]);
    es := ExposedFails(s, a + b + [Receive(0)], Next(t, Receive(0)));
  }

  /** Tables left behind with digests on and without a broadcast entry. */
  const LEFT_BEHIND := Switch({}, map[], map[], true)

  /** The tables are not empty when the controller connects: until it has handled its election, digests go out. */
  lemma FailsFromLeftBehind() returns (s: State, es: seq<Event>)
    ensures Initial(s) && InOrder(es) && NoLoss(es) && NoForeign(es)
    ensures Ready(Run(s, es)) && BROADCAST in Run(s, es).switch.forward
  {
    s := State(LEFT_BEHIND, false, [], []);
    RunLast(s, [], s, Elect);
    es := ExposedFails(s, [] + [Elect], Next(s, Elect));
  }

  /** The same when somebody else writes them before the first election. */
  lemma FailsAfterForeign() returns (s: State, es: seq<Event>)
    ensures Initial(s) && s.switch == EMPTY && InOrder(es) && NoLoss(es)
    ensures Ready(Run(s, es)) && BROADCAST in Run(s, es).switch.forward
  {
    s := State(EMPTY, false, [], []);
    RunTwo(s, Foreign(LEFT_BEHIND), Elect);
    es := ExposedFails(s, [Foreign(LEFT_BEHIND), Elect], Next(Next(s, Foreign(LEFT_BEHIND)), Elect));
  }

  //////////////////////////////////////////////////////////////////////
  // The exact condition
  //////////////////////////////////////////////////////////////////////

  /** A class of runs: which of the five liberties its runs may take. */
  datatype Liberties = Liberties(broadcastSources: bool, tablesLeftBehind: bool, roleLost: bool, foreignWrites: bool,
                                 outOfOrder: bool)

  predicate Within(c: Liberties, s: State, es: seq<Event>) {
    && Initial(s)
    && (!c.broadcastSources ==> TrueFrames(es, NO_BROADCAST_SOURCES))
    && (!c.tablesLeftBehind ==> s.switch == EMPTY)
    && (!c.roleLost ==> NoLoss(es))
    && (!c.foreignWrites ==> NoForeign(es))
    && (!c.outOfOrder ==> InOrder(es))
  }

  /** No run of the class ever leaves the broadcast address in the forward table of an installed switch. */
  ghost predicate KeepsBroadcastOut(c: Liberties) {
    forall s, es :: Within(c, s, es) && Ready(Run(s, es)) ==> BROADCAST !in Run(s, es).switch.forward
  }

  /** All runs of a class keep the broadcast address out of the forward table if and only if it is never a source, as
      IEEE 802.3 has it, or the switch starts empty, the primary role is never lost and nobody else writes. The order of
      messages makes no difference. */
  lemma BroadcastStaysOut(c: Liberties)
    ensures KeepsBroadcastOut(c) <==> !c.broadcastSources || (!c.tablesLeftBehind && !c.roleLost && !c.foreignWrites)
  {
    hide Run;
    hide Ready;
    hide Initial;
    if !c.broadcastSources || (!c.tablesLeftBehind && !c.roleLost && !c.foreignWrites) {
      forall s, es | Within(c, s, es) && Ready(Run(s, es))
        ensures BROADCAST !in Run(s, es).switch.forward
      {
        StaysOut(s, es);
      }
    } else {
      var s, es;
      if c.tablesLeftBehind {
        s, es := FailsFromLeftBehind();
      } else if c.roleLost {
        s, es := FailsAfterLoss();
      } else {
        s, es := FailsAfterForeign();
      }
      assert Within(c, s, es) && Ready(Run(s, es)) && BROADCAST in Run(s, es).switch.forward;
    }
  }

  lemma StaysOut(s: State, es: seq<Event>)
    requires Initial(s) && (TrueFrames(es, NO_BROADCAST_SOURCES) || (s.switch == EMPTY && Calm(es)))
    requires Ready(Run(s, es))
    ensures BROADCAST !in Run(s, es).switch.forward
  {
    hide Next;
    hide True;
    if TrueFrames(es, NO_BROADCAST_SOURCES) {
      RunKeeps(s, es, NO_BROADCAST_SOURCES);
    } else {
      CalmRun(s, es);
    }
    ReadyAgrees(Run(s, es), NO_BROADCAST_SOURCES);
  }
}
