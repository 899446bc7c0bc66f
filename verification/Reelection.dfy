/** The INT tables while the primary controller changes: every write may be refused, other controllers write in
    between, messages overtake each other (control_plane.cpp, int.cpp). */
module Reelection {
  import opened Bits
  import opened Headers
  import opened IntSwitch
  import opened IntTables
  import opened ControlPlane

  /** OtherMessage: a digest or an error, which makes controllers write n times to other tables at most. */
  datatype Message = Arbitration(elected: bool) | OtherMessage(n: nat)

  datatype Op =
    | ResetPipeline
    | OtherWrite
    | InsertHost
    | InsertLine(row: Row)
    | InsertNodeId
    | InsertAsAddr
    | InsertUtil(port: u9)
    | InsertSession

  /** What an election is to install. */
  datatype Held = Held(tables: Tables, sessions: map<u32, (u9, nat)>)

  /** primary: the switch accepts this controller's writes. */
  datatype State = State(held: Held, primary: bool, wire: seq<Message>, todo: seq<Op>)

  datatype Event =
    | Elect                      // this controller becomes, or is confirmed as, the primary
    | Lose                       // another controller becomes the primary
    | Notify(n: nat)             // a message of another kind is sent
    | Foreign(held: Held)        // the other primary writes the tables
    | Receive(at: nat)           // messages may overtake each other
    | Drop(at: nat)              // a message of another kind is lost
    | Execute(late: bool)        // late: a request accepted before the loss of the primary role still completes

  function Effect(cfg: Config, h: Held, op: Op): Held {
    var t := h.tables;
    match op
    case ResetPipeline => NOTHING
    case OtherWrite => h
    case InsertHost => h.(tables := t.(scionInt := InstallRows(t.scionInt, [], cfg.hostISD, cfg.hostAS, cfg.size)))
    case InsertLine(row) => h.(tables := t.(scionInt := InstallRow(t.scionInt, row, cfg.hostISD, cfg.hostAS, cfg.size)))
    case InsertNodeId => h.(tables := t.(nodeId := Insert<u1, u32>(t.nodeId, 1, cfg.nodeID, cfg.size)))
    case InsertAsAddr => h.(tables := t.(asAddr := Insert<u1, u64>(t.asAddr, 1, cfg.hostAS, cfg.size)))
    case InsertUtil(p) => h.(tables := t.(txUtil := Insert<(u1, u9), u32>(t.txUtil, (1, p), 0, cfg.size)))
    case InsertSession =>
      if CLONE_SESSION in h.sessions then h else h.(sessions := h.sessions[CLONE_SESSION := TO_CPU])
  }

  const NOTHING := Held(NO_TABLES, map[])

  function EffectAll(cfg: Config, h: Held, ops: seq<Op>): Held {
    if ops == [] then h else Effect(cfg, EffectAll(cfg, h, ops[..|ops| - 1]), ops[|ops| - 1])
  }

  function OtherWrites(n: nat): seq<Op> {
    seq(n, i => OtherWrite)
  }

  function Lines(rows: seq<Row>): seq<Op> {
    seq(|rows|, i requires 0 <= i < |rows| => InsertLine(rows[i]))
  }

  function Utils(n: nat): seq<Op>
    requires n <= 512
  {
    seq(n, i requires 0 <= i < n => InsertUtil(i))
  }

  /** The reaction to a won election: the reset, the ten writes of the MAC-learning controller, then those of the INT
      controller. */
  function Installation(cfg: Config): seq<Op> {
    [ResetPipeline] + OtherWrites(10) + ([InsertHost] + Lines(cfg.rows))
    + ([InsertNodeId] + [InsertAsAddr] + Utils(512)) + [InsertSession]
  }

  function Reaction(cfg: Config, m: Message): seq<Op> {
    match m
    case Arbitration(elected) => if elected then Installation(cfg) else []
    case OtherMessage(n) => OtherWrites(n)
  }

  predicate Enabled(s: State, e: Event) {
    match e
    case Elect => true
    case Lose => s.primary
    case Notify(_) => true
    case Foreign(_) => !s.primary
    case Receive(at) => s.todo == [] && at < |s.wire|
    case Drop(at) => at < |s.wire| && s.wire[at].OtherMessage?
    case Execute(_) => s.todo != []
  }

  function Without(wire: seq<Message>, at: nat): seq<Message>
    requires at < |wire|
  {
    wire[..at] + wire[at + 1..]
  }

  function Next(cfg: Config, s: State, e: Event): State {
    if !Enabled(s, e) then s else
    match e
    case Elect => s.(primary := true, wire := s.wire + [Arbitration(true)])
    case Lose => s.(primary := false, wire := s.wire + [Arbitration(false)])
    case Notify(n) => s.(wire := s.wire + [OtherMessage(n)])
    case Foreign(h) => s.(held := h)
    case Receive(at) => s.(wire := Without(s.wire, at), todo := Reaction(cfg, s.wire[at]))
    case Drop(at) => s.(wire := Without(s.wire, at))
    case Execute(late) =>
      s.(todo := s.todo[1..], held := if s.primary || late then Effect(cfg, s.held, s.todo[0]) else s.held)
  }

  function Run(cfg: Config, s: State, es: seq<Event>): State {
    if es == [] then s else Next(cfg, Run(cfg, s, es[..|es| - 1]), es[|es| - 1])
  }

  /** Before the controller connects, the tables may hold anything. */
  predicate Initial(s: State) {
    !s.primary && s.wire == [] && s.todo == []
  }

  //////////////////////////////////////////////////////////////////////
  // A whole installation
  //////////////////////////////////////////////////////////////////////

  lemma {:induction false} EffectConcat(cfg: Config, h: Held, a: seq<Op>, b: seq<Op>)
    ensures EffectAll(cfg, h, a + b) == EffectAll(cfg, EffectAll(cfg, h, a), b)
  {
    hide Effect;
    if b == [] {
      assert a + b == a;
    } else {
      assert (a + b)[..|a + b| - 1] == a + b[..|b| - 1];
      EffectConcat(cfg, h, a, b[..|b| - 1]);
    }
  }

  lemma {:induction false} OtherWritesNothing(cfg: Config, h: Held, n: nat)
    ensures EffectAll(cfg, h, OtherWrites(n)) == h
  {
    if n > 0 {
      assert OtherWrites(n)[..n - 1] == OtherWrites(n - 1);
      OtherWritesNothing(cfg, h, n - 1);
    }
  }

  lemma {:induction false} LinesInstall(cfg: Config, h: Held, rows: seq<Row>)
    ensures EffectAll(cfg, h, [InsertHost] + Lines(rows))
         == h.(tables := h.tables.(scionInt := InstallRows(h.tables.scionInt, rows, cfg.hostISD, cfg.hostAS, cfg.size)))
    decreases |rows|
  {
    hide InstallRow;
    var ops := [InsertHost] + Lines(rows);
    if rows == [] {
      assert ops[..0] == [];
    } else {
      var n := |rows| - 1;
      assert ops[..n + 1] == [InsertHost] + Lines(rows[..n]);
      LinesInstall(cfg, h, rows[..n]);
    }
  }

  lemma {:induction false} UtilsInstall(cfg: Config, h: Held, n: nat)
    requires n <= 512
    ensures EffectAll(cfg, h, Utils(n))
         == h.(tables := h.tables.(txUtil := Utilisations(h.tables.txUtil, n, cfg.size)))
  {
    if n > 0 {
      assert Utils(n)[..n - 1] == Utils(n - 1);
      UtilsInstall(cfg, h, n - 1);
    }
  }

  lemma OneEffect(cfg: Config, h: Held, op: Op)
    ensures EffectAll(cfg, h, [op]) == Effect(cfg, h, op)
  {
    assert [op][..0] == [];
    assert EffectAll(cfg, h, []) == h;
  }

  function Final(cfg: Config): Held {
    Held(cfg.Installed(), CLONE_SESSIONS)
  }

  /** Undisturbed, the installation leaves the installed tables and session whatever was there before. */
  lemma WholeInstallation(cfg: Config, h: Held)
    ensures EffectAll(cfg, h, Installation(cfg)) == Final(cfg)
  {
    hide InstallRows;
    hide Utilisations;
    hide EffectAll;
    var a, b, c := [ResetPipeline], OtherWrites(10), [InsertHost] + Lines(cfg.rows);
    var d, e := [InsertNodeId] + [InsertAsAddr], Utils(512);
    OneEffect(cfg, h, ResetPipeline);
    EffectConcat(cfg, h, a, b);
    OtherWritesNothing(cfg, NOTHING, 10);
    EffectConcat(cfg, h, a + b, c);
    LinesInstall(cfg, NOTHING, cfg.rows);
    var h1 := EffectAll(cfg, h, a + b + c);
    EffectConcat(cfg, h, a + b + c, d + e);
    EffectConcat(cfg, h1, d, e);
    EffectConcat(cfg, h1, [InsertNodeId], [InsertAsAddr]);
    OneEffect(cfg, h1, InsertNodeId);
    OneEffect(cfg, EffectAll(cfg, h1, [InsertNodeId]), InsertAsAddr);
    UtilsInstall(cfg, EffectAll(cfg, h1, d), 512);
    EffectConcat(cfg, h, a + b + c + (d + e), [InsertSession]);
    OneEffect(cfg, EffectAll(cfg, h, a + b + c + (d + e)), InsertSession);
  }

  //////////////////////////////////////////////////////////////////////
  // Over all runs
  //////////////////////////////////////////////////////////////////////

  /** j steps of an installation are done, none of them refused. */
  predicate Installing(cfg: Config, s: State, j: nat) {
    && j <= |Installation(cfg)| && s.todo == Installation(cfg)[j..]
    && (j > 0 ==> s.held == EffectAll(cfg, NOTHING, Installation(cfg)[..j]))
  }

  predicate OthersOnly(todo: seq<Op>) {
    forall i :: 0 <= i < |todo| ==> todo[i] == OtherWrite
  }

  /** The primary has an election still to handle, is installing undisturbed, or has installed everything. */
  ghost predicate Inv(cfg: Config, s: State) {
    s.primary ==>
      || Arbitration(true) in s.wire
      || (exists j: nat :: Installing(cfg, s, j))
      || (OthersOnly(s.todo) && s.held == Final(cfg))
  }

  lemma InstallingStep(cfg: Config, s: State, j: nat, late: bool)
    requires Installing(cfg, s, j) && s.primary && s.todo != []
    ensures Installing(cfg, Next(cfg, s, Execute(late)), j + 1)
  {
    hide Effect;
    var all := Installation(cfg);
    assert all[j..][0] == all[j] && all[j..][1..] == all[j + 1..];
    assert all[..j + 1] == all[..j] + [all[j]];
    EffectConcat(cfg, NOTHING, all[..j], [all[j]]);
    OneEffect(cfg, EffectAll(cfg, NOTHING, all[..j]), all[j]);
    if j == 0 {
      ResetForgets(cfg, s.held);
      ResetForgets(cfg, NOTHING);
      assert all[..0] == [];
    }
  }

  lemma ResetForgets(cfg: Config, h: Held)
    ensures Installation(cfg)[0] == ResetPipeline && Effect(cfg, h, ResetPipeline) == NOTHING
  {
  }

  lemma InstallingEnds(cfg: Config, s: State, j: nat)
    requires Installing(cfg, s, j) && s.todo == []
    ensures s.held == Final(cfg)
  {
    var all := Installation(cfg);
    assert j == |all| && all[..j] == all;
    WholeInstallation(cfg, NOTHING);
  }

  lemma Keeps(wire: seq<Message>, at: nat)
    requires at < |wire| && Arbitration(true) in wire && wire[at] != Arbitration(true)
    ensures Arbitration(true) in Without(wire, at)
  {
    var i :| 0 <= i < |wire| && wire[i] == Arbitration(true);
    assert Without(wire, at)[if i < at then i else i - 1] == Arbitration(true);
  }

  lemma StepKeeps(cfg: Config, s: State, e: Event)
    requires Inv(cfg, s)
    ensures Inv(cfg, Next(cfg, s, e))
  {
    hide Effect;
    hide Final;
    var t := Next(cfg, s, e);
    if t.primary && Enabled(s, e) {
      match e
      case Elect =>
        assert t.wire[|s.wire|] == Arbitration(true);
      case Notify(n) =>
        if Arbitration(true) in s.wire {
        } else if j: nat :| Installing(cfg, s, j) {
          assert Installing(cfg, t, j);
        }
      case Receive(at) => ReceiveKeeps(cfg, s, at);
      case Drop(at) =>
        if Arbitration(true) in s.wire {
          Keeps(s.wire, at);
        } else if j: nat :| Installing(cfg, s, j) {
          assert Installing(cfg, t, j);
        }
      case Execute(late) =>
        if Arbitration(true) in s.wire {
        } else if j: nat :| Installing(cfg, s, j) {
          InstallingStep(cfg, s, j, late);
        } else {
          NothingToDo(cfg, s.held);
        }
    }
  }

  lemma NothingToDo(cfg: Config, h: Held)
    ensures Effect(cfg, h, OtherWrite) == h
  {
  }

  lemma ReceiveKeeps(cfg: Config, s: State, at: nat)
    requires Inv(cfg, s) && s.primary && s.todo == [] && at < |s.wire|
    ensures Inv(cfg, Next(cfg, s, Receive(at)))
  {
    hide Final;
    hide Installation;
    var t := Next(cfg, s, Receive(at));
    if s.wire[at] == Arbitration(true) {
      assert Installation(cfg)[0..] == Installation(cfg);
      assert Installing(cfg, t, 0);
    } else if Arbitration(true) in s.wire {
      Keeps(s.wire, at);
    } else {
      if j: nat :| Installing(cfg, s, j) {
        InstallingEnds(cfg, s, j);
      }
      assert OthersOnly(t.todo);
    }
  }

  lemma {:induction false} RunKeeps(cfg: Config, s: State, es: seq<Event>)
    requires Initial(s)
    ensures Inv(cfg, Run(cfg, s, es))
  {
    if es != [] {
      RunKeeps(cfg, s, es[..|es| - 1]);
      StepKeeps(cfg, Run(cfg, s, es[..|es| - 1]), es[|es| - 1]);
    }
  }

  /** In every run, whatever was refused, lost, overtaken or written by others in between: once the primary controller
      has no election left to handle and nothing left to write, the INT tables and the clone session are the installed
      ones. */
  lemma ElectionsInstall(cfg: Config, s: State, es: seq<Event>)
    requires Initial(s)
    ensures var t := Run(cfg, s, es);
      t.primary && Arbitration(true) !in t.wire && t.todo == [] ==> t.held == Final(cfg)
  {
    hide Final;
    RunKeeps(cfg, s, es);
    var t := Run(cfg, s, es);
    if t.primary && Arbitration(true) !in t.wire && t.todo == [] {
      if j: nat :| Installing(cfg, t, j) {
        InstallingEnds(cfg, t, j);
      }
    }
  }

  //////////////////////////////////////////////////////////////////////
  // Before an election is handled
  //////////////////////////////////////////////////////////////////////

  function Executes(n: nat): seq<Event> {
    seq(n, i => Execute(false))
  }

  lemma {:induction false} RunExecutes(cfg: Config, s: State, n: nat)
    requires n <= |s.todo|
    ensures Run(cfg, s, Executes(n))
         == s.(todo := s.todo[n..], held := if s.primary then EffectAll(cfg, s.held, s.todo[..n]) else s.held)
  {
    hide Effect;
    if n == 0 {
      assert s.todo[0..] == s.todo && s.todo[..0] == [];
    } else {
      assert Executes(n)[..n - 1] == Executes(n - 1);
      RunExecutes(cfg, s, n - 1);
      assert s.todo[n - 1..][0] == s.todo[n - 1] && s.todo[n - 1..][1..] == s.todo[n..];
      assert s.todo[..n][..n - 1] == s.todo[..n - 1];
    }
  }

  lemma {:induction false} RunConcat(cfg: Config, s: State, a: seq<Event>, b: seq<Event>)
    ensures Run(cfg, s, a + b) == Run(cfg, Run(cfg, s, a), b)
  {
    hide Next;
    if b == [] {
      assert a + b == a;
    } else {
      assert (a + b)[..|a + b| - 1] == a + b[..|b| - 1];
      RunConcat(cfg, s, a, b[..|b| - 1]);
    }
  }

  lemma RunOne(cfg: Config, s: State, e: Event)
    ensures Run(cfg, s, [e]) == Next(cfg, s, e)
  {
    assert [e][..0] == [];
    assert Run(cfg, s, []) == s;
  }

  /** The lines of the file never enter the host's own key. */
  lemma {:induction false} OnlyInsertHost(cfg: Config, h: Held, ops: seq<Op>)
    requires cfg.hostAS < 0x1_0000_0000_0000 && (cfg.hostISD, cfg.hostAS) !in h.tables.scionInt
    requires forall i :: 0 <= i < |ops| ==> ops[i] != InsertHost
    ensures (cfg.hostISD, cfg.hostAS) !in EffectAll(cfg, h, ops).tables.scionInt
  {
    if ops != [] {
      OnlyInsertHost(cfg, h, ops[..|ops| - 1]);
    }
  }

  lemma HostIsTwelfth(cfg: Config)
    ensures var all := Installation(cfg);
      |all| > 12 && all[0] == ResetPipeline && forall i :: 12 <= i < |all| ==> all[i] != InsertHost
  {
  }

  /** The role is lost after the reset and comes back behind the host's entry: until the second election is handled, the
      own AS is not in scion_int although everything was tried. */
  lemma Interrupted(cfg: Config) returns (es: seq<Event>)
    requires cfg.hostAS < 0x1_0000_0000_0000
    ensures var t := Run(cfg, State(NOTHING, false, [], []), es);
      t.primary && t.todo == [] && (cfg.hostISD, cfg.hostAS) !in t.held.tables.scionInt
  {
    hide Effect;
    hide Installation;
    hide EffectAll;
    hide Run;
    HostIsTwelfth(cfg);
    var all := Installation(cfg);
    var s0 := State(NOTHING, false, [], []);
    var s1 := Next(cfg, s0, Elect);
    RunOne(cfg, s0, Elect);
    assert s1.wire == [Arbitration(true)];
    var s2 := Next(cfg, s1, Receive(0));
    RunOne(cfg, s1, Receive(0));
    RunConcat(cfg, s0, [Elect], [Receive(0)]);
    var s3 := Next(cfg, s2, Execute(false));
    RunOne(cfg, s2, Execute(false));
    RunConcat(cfg, s0, [Elect] + [Receive(0)], [Execute(false)]);
    ResetForgets(cfg, NOTHING);
    var s4 := Next(cfg, s3, Lose);
    RunOne(cfg, s3, Lose);
    RunConcat(cfg, s0, [Elect] + [Receive(0)] + [Execute(false)], [Lose]);
    var a := [Elect] + [Receive(0)] + [Execute(false)] + [Lose];
    assert Run(cfg, s0, a) == s4 && s4.todo == all[1..] && s4.held == NOTHING && !s4.primary;
    RunExecutes(cfg, s4, 11);
    RunConcat(cfg, s0, a, Executes(11));
    var s5 := Run(cfg, s4, Executes(11));
    assert s5.todo == all[12..] by { assert all[1..][11..] == all[12..]; }
    var s6 := Next(cfg, s5, Elect);
    RunOne(cfg, s5, Elect);
    RunConcat(cfg, s0, a + Executes(11), [Elect]);
    RunExecutes(cfg, s6, |s6.todo|);
    assert s6.todo[..|s6.todo|] == s6.todo;
    RunConcat(cfg, s0, a + Executes(11) + [Elect], Executes(|s6.todo|));
    OnlyInsertHost(cfg, NOTHING, s6.todo);
    es := a + Executes(11) + [Elect] + Executes(|s6.todo|);
  }

  /** No run ends with a primary controller that is idle, and has handled all elections if asked so, without the
      installed tables and session. */
  ghost predicate AlwaysInstalled(cfg: Config, handled: bool) {
    forall s, es :: Initial(s) ==>
      var t := Run(cfg, s, es);
      t.primary && t.todo == [] && (handled ==> Arbitration(true) !in t.wire) ==> t.held == Final(cfg)
  }

  /** The idle primary holds the installed tables and session if and only if all elections are handled. */
  lemma HandledIsExact(cfg: Config, handled: bool)
    requires cfg.hostAS < 0x1_0000_0000_0000 && cfg.size > 0
    ensures AlwaysInstalled(cfg, handled) <==> handled
  {
    hide Run;
    hide Final;
    if handled {
      forall s, es | Initial(s)
        ensures var t := Run(cfg, s, es);
          t.primary && Arbitration(true) !in t.wire && t.todo == [] ==> t.held == Final(cfg)
      {
        ElectionsInstall(cfg, s, es);
      }
    } else {
      var es := Interrupted(cfg);
      FinalHasHost(cfg);
      assert Initial(State(NOTHING, false, [], []));
      assert Run(cfg, State(NOTHING, false, [], []), es).held != Final(cfg);
    }
  }

  lemma {:induction false} HostStays(cfg: Config, rows: seq<Row>)
    requires cfg.hostAS < 0x1_0000_0000_0000 && cfg.size > 0
    ensures (cfg.hostISD, cfg.hostAS) in InstallRows(map[], rows, cfg.hostISD, cfg.hostAS, cfg.size)
  {
    if rows != [] {
      HostStays(cfg, rows[..|rows| - 1]);
    }
  }

  lemma FinalHasHost(cfg: Config)
    requires cfg.hostAS < 0x1_0000_0000_0000 && cfg.size > 0
    ensures (cfg.hostISD, cfg.hostAS) in Final(cfg).tables.scionInt
  {
    HostStays(cfg, cfg.rows);
  }
}
