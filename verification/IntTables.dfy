/** The INT tables: read from a configuration file and written to the switch after every won election
    (readIntTable.h and int.cpp). */
module IntTables {
  import opened Bits
  import opened Headers
  import opened IntSwitch
  import opened EndToEnd
  import Text

  //////////////////////////////////////////////////////////////////////
  // Reading the file
  //////////////////////////////////////////////////////////////////////

  /** A line of the file, split into its fields. */
  datatype Line = Comment | Entry(address: string, bitmapInt: u16, bitmapScion: u16)

  /** asList, bitmapIntList and bitmapScionList, kept as one list of rows. */
  datatype Row = Row(asAddr: u64, bitmapInt: u16, bitmapScion: u16)

  /** None is the exception for a number out of range. */
  function RowOf(line: Line): Option<Row>
    requires line.Entry?
  {
    var a := Text.ScionAddress(line.address);
    if a.None? then None
    else Some(Row(Text.PackAddress(a.value.0, a.value.1), line.bitmapInt, line.bitmapScion))
  }

  function RowsOf(lines: seq<Line>): Option<seq<Row>> {
    if lines == [] then Some([]) else
    var n := |lines| - 1;
    var rest := RowsOf(lines[..n]);
    if rest.None? || lines[n].Comment? then rest else
    var row := RowOf(lines[n]);
    if row.None? then None else Some(rest.value + [row.value])
  }

  /** The fields of a line; what is missing or cannot be read is zero, and nothing is read after it. */
  function LineOf(text: string): Line {
    if text != [] && text[0] == '#' then Comment else
    var t := Text.SkipSpace(text);
    var address := Text.Word(t);
    var a := Text.HexField(t[|address|..]);
    Entry(address, a.value, if a.good then Text.HexField(a.rest).value else 0)
  }

  /** The lines std::getline finds in the file. */
  function FileLines(file: string): seq<Line>
    decreases |file|
  {
    if file == [] then [] else [LineOf(Text.Head(file, '\n'))] + FileLines(Text.Tail(file, '\n'))
  }

  /** The line loop, which fills three parallel lists. */
  method ReadIntTable(file: string)
    returns (ok: bool, asList: seq<u64>, bitmapIntList: seq<u16>, bitmapScionList: seq<u16>)
    ensures ok == RowsOf(FileLines(file)).Some?
    ensures ok ==> |asList| == |bitmapIntList| == |bitmapScionList| == |RowsOf(FileLines(file)).value|
    ensures ok ==> forall i :: 0 <= i < |asList| ==>
                     RowsOf(FileLines(file)).value[i] == Row(asList[i], bitmapIntList[i], bitmapScionList[i])
  {
    hide Text.ScionAddress;
    hide Text.PackAddress;
    hide Text.Head;
    hide Text.Tail;
    hide LineOf;
    hide RowsOf;
    NoRows();
    ok, asList, bitmapIntList, bitmapScionList := true, [], [], [];
    var rest := file;
    ghost var done: seq<Line> := [];
    while rest != []
      invariant FileLines(file) == done + FileLines(rest) && RowsOf(done).Some?
      invariant |asList| == |bitmapIntList| == |bitmapScionList| == |RowsOf(done).value|
      invariant forall k :: 0 <= k < |asList| ==>
                  RowsOf(done).value[k] == Row(asList[k], bitmapIntList[k], bitmapScionList[k])
      decreases |rest|
    {
      var line := LineOf(Text.Head(rest, '\n'));
      rest := Text.Tail(rest, '\n');
      assert done + ([line] + FileLines(rest)) == (done + [line]) + FileLines(rest);
      RowsMore(done, line);
      if line.Entry? {
        var a := Text.SplitScionAddress(line.address);
        if a.None? {
          BadLine(FileLines(file), |done|);
          return false, [], [], [];
        }
        asList := asList + [Text.PackAddress(a.value.0, a.value.1)];
        bitmapIntList := bitmapIntList + [line.bitmapInt];
        bitmapScionList := bitmapScionList + [line.bitmapScion];
      }
      done := done + [line];
    }
    assert done + [] == done;
  }

  /** How a row is written into the file, with any numbers. */
  function RowText(isd: u16, asn: u48, bitmapInt: nat, bitmapScion: nat): string {
    Text.AddressText(isd, asn) + (" 0x" + Text.Hex(bitmapInt) + (" 0x" + Text.Hex(bitmapScion)))
  }

  /** A written line is read back. A first bitmap out of range becomes the largest, and the second then zero; a second
      one out of range becomes the largest. */
  lemma LineRoundTrip(isd: u16, asn: u48, bitmapInt: nat, bitmapScion: nat)
    ensures LineOf(RowText(isd, asn, bitmapInt, bitmapScion))
         == Entry(Text.AddressText(isd, asn), if bitmapInt > 0xffff then 0xffff else bitmapInt,
                  if bitmapInt > 0xffff then 0 else if bitmapScion > 0xffff then 0xffff else bitmapScion)
    ensures ValidLine(LineOf(RowText(isd, asn, bitmapInt, bitmapScion)))
    ensures '\n' !in RowText(isd, asn, bitmapInt, bitmapScion)
  {
    hide Text.AddressText;
    hide Text.ScionAddress;
    hide Text.Hex;
    hide Text.HexField;
    hide Text.Word;
    hide Text.IsSpace;
    hide Text.Digits;
    hide Text.ValueOf;
    Text.AddressNoSpace(isd, asn);
    Text.AddressRoundTrip(isd, asn);
    var a := Text.AddressText(isd, asn);
    var second := " 0x" + Text.Hex(bitmapScion);
    var rest := " 0x" + Text.Hex(bitmapInt) + second;
    assert RowText(isd, asn, bitmapInt, bitmapScion) == a + rest && (a + rest)[0] == a[0];
    FieldsOf(bitmapInt, bitmapScion);
    Text.WordOf(a, rest);
  }

  lemma FieldsOf(bitmapInt: nat, bitmapScion: nat)
    ensures var second := " 0x" + Text.Hex(bitmapScion);
      var rest := " 0x" + Text.Hex(bitmapInt) + second;
      && Text.HexField(rest) == Text.Clipped(bitmapInt, second)
      && Text.HexField(second) == Text.Clipped(bitmapScion, [])
      && Text.IsSpace(rest[0]) && '\n' !in rest
  {
    hide Text.Hex;
    hide Text.HexField;
    hide Text.ValueOf;
    var second := " 0x" + Text.Hex(bitmapScion);
    Text.HexFieldOf(bitmapInt, second);
    assert second + [] == second;
    Text.HexFieldOf(bitmapScion, []);
    Text.HexIsDigits(bitmapInt);
    Text.HexIsDigits(bitmapScion);
    Text.DigitsNoSpace(Text.Hex(bitmapInt));
    Text.DigitsNoSpace(Text.Hex(bitmapScion));
  }

  /** A line that starts with a number sign is a comment, whatever it says. */
  lemma CommentLine(text: string, file: string)
    requires '\n' !in text
    ensures FileLines(['#'] + text + ['\n'] + file) == [Comment] + FileLines(file)
  {
    var line := ['#'] + text;
    hide Text.SkipSpace;
    hide Text.HexField;
    Text.SplitAt(line, '\n', file);
  }

  /** Whatever follows it, the first line of a file is that line. */
  lemma FirstLineOfFile(isd: u16, asn: u48, bitmapInt: u16, bitmapScion: u16, file: string)
    ensures FileLines(RowText(isd, asn, bitmapInt, bitmapScion) + ['\n'] + file)
         == [Entry(Text.AddressText(isd, asn), bitmapInt, bitmapScion)] + FileLines(file)
  {
    hide RowText;
    hide LineOf;
    LineRoundTrip(isd, asn, bitmapInt, bitmapScion);
    Text.SplitAt(RowText(isd, asn, bitmapInt, bitmapScion), '\n', file);
  }

  lemma NoRows()
    ensures RowsOf([]) == Some([])
  {
  }

  lemma RowsMore(lines: seq<Line>, line: Line)
    requires RowsOf(lines).Some?
    ensures RowsOf(lines + [line]) == if line.Comment? then RowsOf(lines)
                                      else if RowOf(line).None? then None
                                      else Some(RowsOf(lines).value + [RowOf(line).value])
  {
    hide RowOf;
    assert (lines + [line])[..|lines|] == lines;
  }

  lemma {:induction false} BadLine(lines: seq<Line>, i: nat)
    requires i < |lines| && lines[i].Entry? && RowOf(lines[i]) == None
    ensures RowsOf(lines) == None
  {
    if i < |lines| - 1 {
      BadLine(lines[..|lines| - 1], i);
    }
  }

  //////////////////////////////////////////////////////////////////////
  // Writing the tables
  //////////////////////////////////////////////////////////////////////

  const NO_TABLES := Tables(map[], map[], map[], map[])

  /** Table entries in their P4Runtime encoding: every value a big-endian byte string. */
  datatype Entity =
    | ScionInt(isd: seq<byte>, asn: seq<byte>, action: Option<(seq<byte>, seq<byte>)>)
    | NodeId(flag: seq<byte>, nodeID: seq<byte>)
    | AsAddr(flag: seq<byte>, asAddr: seq<byte>)
    | TxUtil(flag: seq<byte>, port: seq<byte>, util: seq<byte>)

  predicate Formed(e: Entity) {
    match e
    case ScionInt(isd, asn, a) => |isd| == 2 && |asn| == 6 && (a.Some? ==> |a.value.0| == |a.value.1| == 2)
    case NodeId(f, n) => |f| == 1 && NatOf(f) < 2 && |n| == 4
    case AsAddr(f, a) => |f| == 1 && NatOf(f) < 2 && |a| == 8
    case TxUtil(f, p, u) => |f| == 1 && NatOf(f) < 2 && |p| == 2 && NatOf(p) < 512 && |u| == 4
  }

  /** An INSERT fails on a key that exists and on a full table. */
  function Insert<K, V>(m: map<K, V>, k: K, v: V, size: nat): map<K, V> {
    if k in m || |m| >= size then m else m[k := v]
  }

  function Num16(b: seq<byte>): u16
    requires |b| == 2
  {
    Pow256Values();
    Num(2, b)
  }

  function Num32(b: seq<byte>): u32
    requires |b| == 4
  {
    Pow256Values();
    Num(4, b)
  }

  function Num48(b: seq<byte>): u48
    requires |b| == 6
  {
    Pow256Values();
    Num(6, b)
  }

  function Num64(b: seq<byte>): u64
    requires |b| == 8
  {
    Pow256Values();
    Num(8, b)
  }

  /** One update at the switch, whose tables hold `size` entries. */
  function ApplyEntity(t: Tables, e: Entity, size: nat): Tables
    requires Formed(e)
  {
    match e
    case ScionInt(isd, asn, a) =>
      var action := if a.Some? then InsertInt(Num16(a.value.0), Num16(a.value.1)) else CloneInt;
      t.(scionInt := Insert<(u16, u48), Action>(t.scionInt, (Num16(isd), Num48(asn)), action, size))
    case NodeId(f, n) => t.(nodeId := Insert<u1, u32>(t.nodeId, NatOf(f), Num32(n), size))
    case AsAddr(f, a) => t.(asAddr := Insert<u1, u64>(t.asAddr, NatOf(f), Num64(a), size))
    case TxUtil(f, p, u) => t.(txUtil := Insert<(u1, u9), u32>(t.txUtil, (NatOf(f), NatOf(p)), Num32(u), size))
  }

  class IntTableSwitch {
    const size: nat
    var tables: Tables
    /** Port and instance of the copies each clone session makes. */
    var cloneSessions: map<u32, (u9, nat)>

    constructor (size: nat)
      ensures this.size == size && tables == NO_TABLES && cloneSessions == map[]
    {
      this.size := size;
      tables, cloneSessions := NO_TABLES, map[];
    }

    /** A new pipeline configuration. */
    method Reset()
      modifies this
      ensures tables == NO_TABLES && cloneSessions == map[]
    {
      tables, cloneSessions := NO_TABLES, map[];
    }

    method InsertCloneSession(id: u32, replica: (u9, nat)) returns (ok: bool)
      modifies `cloneSessions
      ensures ok == (id !in old(cloneSessions))
      ensures cloneSessions == if ok then old(cloneSessions)[id := replica] else old(cloneSessions)
    {
      ok := id !in cloneSessions;
      if ok {
        cloneSessions := cloneSessions[id := replica];
      }
    }

    /** A write request with CONTINUE_ON_ERROR. */
    method Write(updates: seq<Entity>)
      requires forall i :: 0 <= i < |updates| ==> Formed(updates[i])
      modifies `tables
      ensures tables == ApplyAll(old(tables), updates, size)
    {
      hide ApplyEntity;
      hide Formed;
      var i := 0;
      while i < |updates|
        invariant 0 <= i <= |updates|
        invariant tables == ApplyAll(old(tables), updates[..i], size)
      {
        assert updates[..i + 1][..i] == updates[..i];
        tables := ApplyEntity(tables, updates[i], size);
        i := i + 1;
      }
      assert updates[..i] == updates;
    }
  }

  function ApplyAll(t: Tables, es: seq<Entity>, size: nat): Tables
    requires forall i :: 0 <= i < |es| ==> Formed(es[i])
  {
    if es == [] then t else ApplyEntity(ApplyAll(t, es[..|es| - 1], size), es[|es| - 1], size)
  }

  lemma ApplySnoc(t: Tables, es: seq<Entity>, e: Entity, size: nat)
    requires (forall i :: 0 <= i < |es| ==> Formed(es[i])) && Formed(e)
    ensures ApplyAll(t, es + [e], size) == ApplyEntity(ApplyAll(t, es, size), e, size)
  {
    assert (es + [e])[..|es|] == es;
  }

  //////////////////////////////////////////////////////////////////////
  // The controller
  //////////////////////////////////////////////////////////////////////

  function Key(asAddr: u64): (u16, u48) {
    (asAddr / 0x1_0000_0000_0000, asAddr % 0x1_0000_0000_0000)
  }

  lemma KeyFits(isd: u16, asn: u48)
    ensures isd % 0x1_0000 == isd && asn % 0x1_0000_0000_0000 == asn
  {
  }

  /** The effect of one row on scion_int; the host's own rows are skipped. */
  function InstallRow(m: map<(u16, u48), Action>, row: Row, hostISD: u16, hostAS: u64, size: nat)
    : map<(u16, u48), Action>
  {
    if Key(row.asAddr).0 == hostISD && Key(row.asAddr).1 == hostAS then m
    else Insert<(u16, u48), Action>(m, Key(row.asAddr), InsertInt(row.bitmapInt, row.bitmapScion), size)
  }

  function InstallRows(m: map<(u16, u48), Action>, rows: seq<Row>, hostISD: u16, hostAS: u64, size: nat)
    : map<(u16, u48), Action>
  {
    if rows == [] then Insert<(u16, u48), Action>(m, (hostISD, hostAS % 0x1_0000_0000_0000), CloneInt, size)
    else InstallRow(InstallRows(m, rows[..|rows| - 1], hostISD, hostAS, size), rows[|rows| - 1], hostISD, hostAS, size)
  }

  function Utilisations(m: map<(u1, u9), u32>, n: nat, size: nat): map<(u1, u9), u32>
    requires n <= 512
  {
    if n == 0 then m else Insert<(u1, u9), u32>(Utilisations(m, n - 1, size), (1, n - 1), 0, size)
  }

  /** The installation's inserts into tables t. */
  function InstallOn(t: Tables, rows: seq<Row>, hostISD: u16, hostAS: u64, nodeID: u32, size: nat): Tables {
    Tables(InstallRows(t.scionInt, rows, hostISD, hostAS, size), Insert<u1, u32>(t.nodeId, 1, nodeID, size),
           Insert<u1, u64>(t.asAddr, 1, hostAS, size), Utilisations(t.txUtil, 512, size))
  }

  /** All tables after an installation that follows a pipeline reset. */
  function Installed(rows: seq<Row>, hostISD: u16, hostAS: u64, nodeID: u32, size: nat): Tables {
    InstallOn(NO_TABLES, rows, hostISD, hostAS, nodeID, size)
  }

  const CLONE_SESSION: u32 := 1
  const CPU_PORT: u9 := 128
  /** The port and the instance type of the copies of a clone session. */
  const TO_CPU: (u9, nat) := (CPU_PORT, CLONE)

  class IntController {
    const hostISD: u16
    const hostAS: u64
    const nodeID: u32
    const asList: seq<u64>
    const bitmapIntList: seq<u16>
    const bitmapScionList: seq<u16>

    ghost predicate Lists(rows: seq<Row>) {
      && |rows| == |asList| == |bitmapIntList| == |bitmapScionList|
      && forall i :: 0 <= i < |rows| ==> rows[i] == Row(asList[i], bitmapIntList[i], bitmapScionList[i])
    }

    constructor (hostISD: u16, hostAS: u64, nodeID: u32, asList: seq<u64>, bitmapIntList: seq<u16>,
                 bitmapScionList: seq<u16>)
      ensures this.hostISD == hostISD && this.hostAS == hostAS && this.nodeID == nodeID
      ensures this.asList == asList && this.bitmapIntList == bitmapIntList && this.bitmapScionList == bitmapScionList
    {
      this.hostISD, this.hostAS, this.nodeID := hostISD, hostAS, nodeID;
      this.asList, this.bitmapIntList, this.bitmapScionList := asList, bitmapIntList, bitmapScionList;
    }

    method BuildScionIntTableEntry(isd: u64, asn: u64, bitmapInt: u16, bitmapScion: u16, clone: bool)
      returns (e: Entity)
      ensures Formed(e)
      ensures forall t: Tables, size :: ApplyEntity(t, e, size) ==
                t.(scionInt := Insert<(u16, u48), Action>(t.scionInt, (isd % 0x1_0000, asn % 0x1_0000_0000_0000),
                                      if clone then CloneInt else InsertInt(bitmapInt, bitmapScion), size))
    {
      var i := ToBitstring(2, isd);
      var a := ToBitstring(6, asn);
      var b := ToBitstring(2, bitmapInt);
      var s := ToBitstring(2, bitmapScion);
      Pow256Values();
      NatOfBytesOf(2, isd);
      NatOfBytesOf(6, asn);
      NatOfBytesOfFits(2, bitmapInt);
      NatOfBytesOfFits(2, bitmapScion);
      e := ScionInt(i, a, if clone then None else Some((b, s)));
    }

    method BuildIntNodeIdTableEntry() returns (e: Entity)
      ensures Formed(e)
      ensures forall t: Tables, size :: ApplyEntity(t, e, size)
                == t.(nodeId := Insert<u1, u32>(t.nodeId, 1, nodeID, size))
    {
      var f := ToBitstring(1, 1);
      var n := ToBitstring(4, nodeID);
      Pow256Values();
      NatOfBytesOfFits(1, 1);
      NatOfBytesOfFits(4, nodeID);
      e := NodeId(f, n);
    }

    method BuildSciAsAddrTableEntry() returns (e: Entity)
      ensures Formed(e)
      ensures forall t: Tables, size :: ApplyEntity(t, e, size)
                == t.(asAddr := Insert<u1, u64>(t.asAddr, 1, hostAS, size))
    {
      var f := ToBitstring(1, 1);
      var a := ToBitstring(8, hostAS);
      Pow256Values();
      NatOfBytesOfFits(1, 1);
      NatOfBytesOfFits(8, hostAS);
      e := AsAddr(f, a);
    }

    method BuildIntTxUtilTableEntry(port: u9, txCount: u32) returns (e: Entity)
      ensures Formed(e)
      ensures forall t: Tables, size :: ApplyEntity(t, e, size)
                == t.(txUtil := Insert<(u1, u9), u32>(t.txUtil, (1, port), txCount, size))
    {
      var f := ToBitstring(1, 1);
      var p := ToBitstring(2, port);
      var u := ToBitstring(4, txCount);
      Pow256Values();
      NatOfBytesOfFits(1, 1);
      NatOfBytesOfFits(2, port);
      NatOfBytesOfFits(4, txCount);
      e := TxUtil(f, p, u);
    }

    /** One turn of the row loop. */
    method InstallOneRow(con: IntTableSwitch, i: nat)
      requires i < |asList| == |bitmapIntList| == |bitmapScionList|
      modifies con`tables
      ensures con.tables == old(con.tables).(scionInt :=
                InstallRow(old(con.tables.scionInt), Row(asList[i], bitmapIntList[i], bitmapScionList[i]),
                           hostISD, hostAS, con.size))
    {
      hide ApplyEntity;
      hide Formed;
      hide Insert;
      var request := [];
      var key := Key(asList[i]);
      hide Key;
      if !(key.0 == hostISD && key.1 == hostAS) {
        var e := BuildScionIntTableEntry(key.0, key.1, bitmapIntList[i], bitmapScionList[i], false);
        KeyFits(key.0, key.1);
        ApplySnoc(con.tables, request, e, con.size);
        request := request + [e];
      }
      con.Write(request);
    }

    /** One write request for the host, one per row, and one for the three flag tables. */
    method InstallStaticTableEntries(con: IntTableSwitch, ghost rows: seq<Row>)
      requires Lists(rows)
      modifies con`tables
      ensures con.tables == InstallOn(old(con.tables), rows, hostISD, hostAS, nodeID, con.size)
    {
      hide ApplyEntity;
      hide Formed;
      hide Insert;
      hide InstallRow;
      ghost var t := con.tables;
      var e := BuildScionIntTableEntry(hostISD, hostAS, 0, 0, true);
      ApplySnoc(t, [], e, con.size);
      assert [] + [e] == [e];
      con.Write([e]);
      var i := 0;
      while i < |asList|
        invariant 0 <= i <= |asList|
        invariant con.tables == t.(scionInt := InstallRows(t.scionInt, rows[..i], hostISD, hostAS, con.size))
      {
        assert rows[..i + 1][..i] == rows[..i];
        InstallOneRow(con, i);
        i := i + 1;
      }
      assert rows[..i] == rows;
      InstallFlagTables(con);
    }

    /** The request for node id, AS and the utilisation of all 512 ports. */
    method InstallFlagTables(con: IntTableSwitch)
      modifies con`tables
      ensures con.tables == Tables(old(con.tables.scionInt),
                                   Insert<u1, u32>(old(con.tables.nodeId), 1, nodeID, con.size),
                                   Insert<u1, u64>(old(con.tables.asAddr), 1, hostAS, con.size),
                                   Utilisations(old(con.tables.txUtil), 512, con.size))
    {
      hide ApplyEntity;
      hide Formed;
      hide Insert;
      var n := BuildIntNodeIdTableEntry();
      var a := BuildSciAsAddrTableEntry();
      ghost var t := old(con.tables);
      ApplySnoc(t, [], n, con.size);
      ApplySnoc(t, [n], a, con.size);
      assert [] + [n] == [n] && [n] + [a] == [n, a];
      var request := [n, a];
      for p := 0 to 512
        invariant con.tables == t
        invariant forall i :: 0 <= i < |request| ==> Formed(request[i])
        invariant ApplyAll(t, request, con.size)
               == Tables(t.scionInt, Insert<u1, u32>(t.nodeId, 1, nodeID, con.size),
                         Insert<u1, u64>(t.asAddr, 1, hostAS, con.size), Utilisations(t.txUtil, p, con.size))
      {
        var u := BuildIntTxUtilTableEntry(p, 0);
        ApplySnoc(t, request, u, con.size);
        request := request + [u];
      }
      con.Write(request);
    }

    /** Clone session 1 copies to the CPU port. */
    method ConfigCloneSession(con: IntTableSwitch) returns (ok: bool)
      modifies con`cloneSessions
      ensures ok == (CLONE_SESSION !in old(con.cloneSessions))
      ensures con.cloneSessions
           == if ok then old(con.cloneSessions)[CLONE_SESSION := TO_CPU] else old(con.cloneSessions)
    {
      ok := con.InsertCloneSession(1, (128, 1));
    }

    method HandleArbitrationUpdate(con: IntTableSwitch, statusCode: nat, ghost rows: seq<Row>)
      requires Lists(rows)
      modifies con
      ensures con.tables == if statusCode == 0 then InstallOn(old(con.tables), rows, hostISD, hostAS, nodeID, con.size)
                            else old(con.tables)
      ensures con.cloneSessions == if statusCode == 0 && CLONE_SESSION !in old(con.cloneSessions)
                                   then old(con.cloneSessions)[CLONE_SESSION := TO_CPU] else old(con.cloneSessions)
    {
      if statusCode == 0 {
        InstallStaticTableEntries(con, rows);
        var ok := ConfigCloneSession(con);
      }
    }
  }

  //////////////////////////////////////////////////////////////////////
  // What ends up in the tables
  //////////////////////////////////////////////////////////////////////

  /** The bitmaps of the first line for a destination, whatever way its address is written. */
  function FirstLine(lines: seq<Line>, k: (u16, u48)): Option<Action> {
    if lines == [] then None
    else if lines[0].Entry? && Text.ScionAddress(lines[0].address) == Some((k.0, k.1))
    then Some(InsertInt(lines[0].bitmapInt, lines[0].bitmapScion))
    else FirstLine(lines[1..], k)
  }

  /** What a switch should do with packets for a destination. */
  function Wanted(lines: seq<Line>, host: (u16, u48), k: (u16, u48)): Option<Action> {
    if k == host then Some(CloneInt) else FirstLine(lines, k)
  }

  /** An ISD-AS address whose AS number fits its three 16-bit groups. */
  predicate ValidLine(line: Line) {
    line.Entry? ==>
      var a := Text.ScionAddress(line.address);
      a.Some? && a.value.1 < 0x1_0000_0000_0000
  }

  predicate ValidLines(lines: seq<Line>) {
    forall i :: 0 <= i < |lines| ==> ValidLine(lines[i])
  }

  lemma {:induction false} FirstLineOfMore(lines: seq<Line>, last: Line, k: (u16, u48))
    ensures FirstLine(lines + [last], k) ==
            if FirstLine(lines, k).Some? then FirstLine(lines, k) else FirstLine([last], k)
  {
    if lines == [] {
      assert lines + [last] == [last];
    } else {
      FirstLineOfMore(lines[1..], last, k);
      assert (lines + [last])[1..] == lines[1..] + [last];
    }
  }

  lemma {:induction false} RowsOfValid(lines: seq<Line>)
    requires ValidLines(lines)
    ensures RowsOf(lines).Some?
  {
    hide Text.ScionAddress;
    hide Text.PackAddress;
    if lines != [] {
      RowsOfValid(lines[..|lines| - 1]);
      assert ValidLine(lines[|lines| - 1]);
    }
  }

  /** The host and the destinations of all lines: what competes for room in scion_int. */
  function Seen(lines: seq<Line>, host: (u16, u48)): set<(u16, u48)>
    requires ValidLines(lines)
  {
    if lines == [] then {host} else
    assert ValidLine(lines[|lines| - 1]);
    Seen(lines[..|lines| - 1], host)
    + if lines[|lines| - 1].Comment? then {} else {Address(lines[|lines| - 1])}
  }

  function Address(line: Line): (u16, u48)
    requires line.Entry? && ValidLine(line)
  {
    var a := Text.ScionAddress(line.address).value;
    (a.0, a.1)
  }

  /** What is seen before the first line for k; nothing before the host. */
  function Ahead(lines: seq<Line>, host: (u16, u48), k: (u16, u48)): set<(u16, u48)>
    requires ValidLines(lines)
  {
    if lines == [] then {}
    else if k in Seen(lines[..|lines| - 1], host) then Ahead(lines[..|lines| - 1], host, k)
    else Seen(lines[..|lines| - 1], host)
  }

  function Min(a: nat, b: nat): nat {
    if a < b then a else b
  }

  /** A scion_int table m that was offered the keys in seen, as far as destination k is concerned: it holds as many of
      them as fit, always the host, nothing but what is wanted, and what is wanted exactly when there was room. */
  predicate Refines(m: map<(u16, u48), Action>, seen: set<(u16, u48)>, ahead: set<(u16, u48)>, wanted: Option<Action>,
                    host: (u16, u48), size: nat, k: (u16, u48))
  {
    && |m| == Min(size, |seen|) && m.Keys <= seen && host in m
    && (wanted.Some? <==> k in seen)
    && (k in m ==> wanted == Some(m[k]))
    && (k in seen ==> (k in m <==> |ahead| < size))
  }

  lemma SameSizeSameSet<T>(a: set<T>, b: set<T>)
    requires a <= b && |a| == |b|
    ensures a == b
  {
    var rest := b - a;
    assert a + rest == b && a !! rest;
    assert rest == {};
  }

  lemma RowRefines(m: map<(u16, u48), Action>, seen: set<(u16, u48)>, ahead: set<(u16, u48)>, wanted: Option<Action>,
                   hostISD: u16, hostAS: u48, size: nat, k: (u16, u48), row: Row)
    requires Refines(m, seen, ahead, wanted, (hostISD, hostAS), size, k)
    ensures Refines(InstallRow(m, row, hostISD, hostAS, size), seen + {Key(row.asAddr)},
                    if k in seen then ahead else seen,
                    if wanted.Some? then wanted
                    else if Key(row.asAddr) == k then Some(InsertInt(row.bitmapInt, row.bitmapScion)) else None,
                    (hostISD, hostAS), size, k)
  {
    hide Key;
    var r := Key(row.asAddr);
    if r in seen {
      assert seen + {r} == seen;
      if |m| < size {
        SameSizeSameSet(m.Keys, seen);
      }
    } else {
      assert |seen + {r}| == |seen| + 1;
    }
  }

  lemma {:induction false} FirstMatch(lines: seq<Line>, hostISD: u16, hostAS: u48, size: nat, k: (u16, u48))
    requires ValidLines(lines) && size > 0
    ensures RowsOf(lines).Some?
    ensures Refines(InstallRows(map[], RowsOf(lines).value, hostISD, hostAS, size), Seen(lines, (hostISD, hostAS)),
                    Ahead(lines, (hostISD, hostAS), k), Wanted(lines, (hostISD, hostAS), k), (hostISD, hostAS), size, k)
  {
    RowsOfValid(lines);
    hide Text.ScionAddress;
    hide Text.PackAddress;
    hide FirstLine;
    var host := (hostISD, hostAS);
    if lines == [] {
      NoLines(k);
    } else {
      hide Refines;
      hide ValidLine;
      hide Seen;
      hide Ahead;
      hide Wanted;
      hide Key;
      hide InstallRow;
      var before, line := lines[..|lines| - 1], lines[|lines| - 1];
      var rows := RowsOf(before).value;
      FirstMatch(before, hostISD, hostAS, size, k);
      LastLine(lines, host, k);
      if line.Entry? {
        RowKey(line);
        assert (rows + [RowOf(line).value])[..|rows|] == rows;
        RowRefines(InstallRows(map[], rows, hostISD, hostAS, size), Seen(before, host), Ahead(before, host, k),
                   Wanted(before, host, k), hostISD, hostAS, size, k, RowOf(line).value);
      } else {
        SkipComment(InstallRows(map[], rows, hostISD, hostAS, size), Seen(before, host), Ahead(before, host, k),
                    Wanted(before, host, k), host, size, k);
      }
    }
  }

  /** What one more line adds. */
  lemma LastLine(lines: seq<Line>, host: (u16, u48), k: (u16, u48))
    requires ValidLines(lines) && lines != []
    ensures var before, line := lines[..|lines| - 1], lines[|lines| - 1];
      && ValidLine(line)
      && Seen(lines, host) == Seen(before, host) + (if line.Comment? then {} else {Address(line)})
      && Ahead(lines, host, k) == (if k in Seen(before, host) then Ahead(before, host, k) else Seen(before, host))
      && Wanted(lines, host, k) == (if Wanted(before, host, k).Some? then Wanted(before, host, k)
                                    else if line.Entry? && Address(line) == k
                                    then Some(InsertInt(line.bitmapInt, line.bitmapScion)) else None)
  {
    hide Text.ScionAddress;
    var before, line := lines[..|lines| - 1], lines[|lines| - 1];
    assert ValidLine(line);
    assert before + [line] == lines;
    FirstLineOfMore(before, line, k);
    OneLine(line, k);
  }

  lemma SkipComment(m: map<(u16, u48), Action>, seen: set<(u16, u48)>, ahead: set<(u16, u48)>, wanted: Option<Action>,
                    host: (u16, u48), size: nat, k: (u16, u48))
    requires Refines(m, seen, ahead, wanted, host, size, k)
    ensures Refines(m, seen + {}, if k in seen then ahead else seen, wanted, host, size, k)
  {
    assert seen + {} == seen;
  }

  lemma RowKey(line: Line)
    requires line.Entry? && ValidLine(line)
    ensures RowOf(line).Some? && Text.ScionAddress(line.address).Some?
    ensures var a := Text.ScionAddress(line.address).value;
      Key(RowOf(line).value.asAddr) == (a.0, a.1) == Address(line)
  {
    hide Text.ScionAddress;
    var a := Text.ScionAddress(line.address).value;
    Text.PackRoundTrip(a.0, a.1);
  }

  lemma NoLines(k: (u16, u48))
    ensures FirstLine([], k) == None
  {
  }

  lemma OneLine(line: Line, k: (u16, u48))
    ensures FirstLine([line], k) ==
            if line.Entry? && Text.ScionAddress(line.address) == Some((k.0, k.1))
            then Some(InsertInt(line.bitmapInt, line.bitmapScion)) else None
  {
    hide Text.ScionAddress;
  }

  lemma {:induction false} UtilisationKeys(n: nat, size: nat)
    requires n <= 512
    ensures |Utilisations(map[], n, size)| == Min(n, size)
    ensures forall f: u1, p: u9 :: (f, p) in Utilisations(map[], n, size) <==> f == 1 && p < n && p < size
  {
    if n > 0 {
      UtilisationKeys(n - 1, size);
    }
  }

  /** The tables of an INT switch after a won election, for a file of valid lines: its own AS is cloned, any other
      destination gets the bitmaps of its first line, and nothing else matches; a listed destination is found if and
      only if the host and the different destinations before its first line leave room for it, and the flag tables hit
      exactly on flag 1 if and only if there is room for all 512 ports. */
  lemma InstalledTables(lines: seq<Line>, hostISD: u16, hostAS: u48, nodeID: u32, size: nat, h: Headers)
    requires ValidLines(lines) && size > 0
    ensures RowsOf(lines).Some?
    ensures var host := (hostISD, hostAS);
      var t := Installed(RowsOf(lines).value, hostISD, hostAS, nodeID, size);
      && (FlagTables(t, nodeID, hostAS) <==> size >= 512)
      && (h.outer.ethernet.Some? && h.inner.udp.Some? && h.scion.addr.Some? ==>
            var dst := (h.scion.addr.value.dstISD, h.scion.addr.value.dstAS);
            && Lookup(h, t) == (if |Ahead(lines, host, dst)| < size then Wanted(lines, host, dst) else None)
            && (Lookup(h, t) == Wanted(lines, host, dst)
                <==> Wanted(lines, host, dst) == None || |Ahead(lines, host, dst)| < size))
  {
    RowsOfValid(lines);
    UtilisationKeys(512, size);
    hide Utilisations;
    hide FirstLine;
    hide ValidLines;
    hide RowsOf;
    hide Seen;
    hide Ahead;
    var t := Installed(RowsOf(lines).value, hostISD, hostAS, nodeID, size);
    if size < 512 {
      var p: u9 := size;
      assert (1, p) !in t.txUtil;
    }
    if h.scion.addr.Some? {
      FirstMatch(lines, hostISD, hostAS, size, (h.scion.addr.value.dstISD, h.scion.addr.value.dstAS));
    }
  }

  /** A file of n lines for n destinations in ISD 1. */
  function ManyLines(n: nat): seq<Line>
    requires n <= 0x1_0000_0000_0000
  {
    seq(n, i requires 0 <= i < n => Entry(Text.AddressText(1, i), 0x8000, 0))
  }

  lemma {:induction false} ManySeen(n: nat, host: (u16, u48))
    requires n <= 0x1_0000_0000_0000 && host.0 != 1
    ensures ValidLines(ManyLines(n)) && |Seen(ManyLines(n), host)| == n + 1
    ensures forall k :: k in Seen(ManyLines(n), host) ==> k == host || k.1 < n
  {
    hide Text.ScionAddress;
    hide Text.AddressText;
    if n > 0 {
      var lines := ManyLines(n);
      assert lines[..n - 1] == ManyLines(n - 1);
      ManySeen(n - 1, host);
      Text.AddressRoundTrip(1, n - 1);
      forall i | 0 <= i < n
        ensures ValidLine(lines[i])
      {
        Text.AddressRoundTrip(1, i);
      }
      var before := Seen(lines[..n - 1], host);
      assert Address(lines[n - 1]) == (1, n - 1);
      assert (1, n - 1) !in before;
      assert Seen(lines, host) == before + {(1, n - 1)};
    }
  }

  /** For every size of the table there is a file whose last destination is listed and not found. */
  lemma ListedNotFound(size: nat, nodeID: u32, h: Headers)
    requires 0 < size <= 0x1_0000_0000_0000
    requires h.outer.ethernet.Some? && h.inner.udp.Some?
    requires h.scion.addr.Some? && h.scion.addr.value.dstISD == 1 && h.scion.addr.value.dstAS == size - 1
    ensures var lines := ManyLines(size);
      && ValidLines(lines) && RowsOf(lines).Some?
      && Wanted(lines, (2, 1), (1, size - 1)) == Some(InsertInt(0x8000, 0))
      && Lookup(h, Installed(RowsOf(lines).value, 2, 1, nodeID, size)) == None
  {
    hide Text.ScionAddress;
    hide Text.AddressText;
    hide Installed;
    hide FirstLine;
    hide Lookup;
    var lines, host := ManyLines(size), (2, 1);
    assert lines[..size - 1] == ManyLines(size - 1);
    ManySeen(size, host);
    ManySeen(size - 1, host);
    InstalledTables(lines, 2, 1, nodeID, size, h);
    FirstMatch(lines[..size - 1], 2, 1, size, (1, size - 1));
    LastLine(lines, host, (1, size - 1));
    Text.AddressRoundTrip(1, size - 1);
    hide ValidLines;
  }
}
