/** Hexadecimal text: SCION addresses (addressConversion.h) and Kafka topic names (int.cpp). */
module Text {
  import opened Bits

  const HEX: string := "0123456789abcdef"

  /** std::hex output: lower case, no leading zeros. */
  function Hex(n: nat): (s: string)
    ensures |s| >= 1
  {
    if n < 16 then [HEX[n]] else Hex(n / 16) + [HEX[n % 16]]
  }

  function Digit(c: char): Option<nat> {
    if '0' <= c <= '9' then Some(c as int - '0' as int)
    else if 'a' <= c <= 'f' then Some(c as int - 'a' as int + 10)
    else if 'A' <= c <= 'F' then Some(c as int - 'A' as int + 10)
    else None
  }

  /** The number of leading hexadecimal digits. */
  function Digits(s: string): (k: nat)
    ensures k <= |s|
  {
    if s == [] || Digit(s[0]).None? then 0 else 1 + Digits(s[1..])
  }

  function ValueOf(s: string): nat
    requires Digits(s) == |s|
    decreases |s|
  {
    if s == [] then 0 else DigitsPrefix(s, |s| - 1); LastDigit(s); 16 * ValueOf(s[..|s| - 1]) + Digit(s[|s| - 1]).value
  }

  lemma {:induction false} DigitsPrefix(s: string, k: nat)
    requires k <= Digits(s)
    ensures Digits(s[..k]) == k
  {
    if k > 0 {
      DigitsPrefix(s[1..], k - 1);
      assert s[..k][1..] == s[1..][..k - 1];
    }
  }

  lemma {:induction false} LastDigit(s: string)
    requires Digits(s) == |s| > 0
    ensures Digit(s[|s| - 1]).Some?
  {
    if |s| > 1 {
      LastDigit(s[1..]);
    }
  }

  /** std::stoull("0x" + s, nullptr, 16): the longest prefix of digits, zero when there is none. */
  function Stoull(s: string): nat {
    DigitsPrefix(s, Digits(s));
    ValueOf(s[..Digits(s)])
  }

  lemma HexDigits(d: nat)
    requires d < 16
    ensures Digit(HEX[d]) == Some(d) && HEX[d] !in "_-:"
  {
  }

  lemma {:induction false} DigitsConcat(a: string, b: string)
    requires Digits(a) == |a|
    ensures Digits(a + b) == |a| + Digits(b)
  {
    if a == [] {
      assert a + b == b;
    } else {
      DigitsConcat(a[1..], b);
      assert (a + b)[1..] == a[1..] + b;
    }
  }

  lemma {:induction false} HexIsDigits(n: nat)
    ensures Digits(Hex(n)) == |Hex(n)| && ValueOf(Hex(n)) == n
    ensures forall i :: 0 <= i < |Hex(n)| ==> Hex(n)[i] !in "_-:"
  {
    HexDigits(n % 16);
    if n < 16 {
      assert Hex(n)[..0] == [];
    } else {
      HexIsDigits(n / 16);
      DigitsConcat(Hex(n / 16), [HEX[n % 16]]);
      assert Hex(n)[..|Hex(n)| - 1] == Hex(n / 16);
    }
  }

  lemma StoullHex(n: nat)
    ensures Stoull(Hex(n)) == n
  {
    HexIsDigits(n);
    assert Hex(n)[..|Hex(n)|] == Hex(n);
  }

  //////////////////////////////////////////////////////////////////////
  // std::getline with a delimiter
  //////////////////////////////////////////////////////////////////////

  /** The position of the first c, or the end. */
  function Find(s: string, c: char): (k: nat)
    ensures k <= |s|
  {
    if s == [] || s[0] == c then 0 else 1 + Find(s[1..], c)
  }

  function Head(s: string, c: char): string {
    s[..Find(s, c)]
  }

  function Tail(s: string, c: char): (t: string)
    ensures s != [] ==> |t| < |s|
  {
    var k := Find(s, c);
    if k == |s| then [] else s[k + 1..]
  }

  lemma {:induction false} SplitAt(a: string, c: char, b: string)
    requires c !in a
    ensures Head(a + [c] + b, c) == a && Tail(a + [c] + b, c) == b
  {
    FindAfter(a, c, b);
    var s := a + [c] + b;
    assert s[..|a|] == a && s[|a| + 1..] == b;
  }

  lemma {:induction false} FindAfter(a: string, c: char, b: string)
    requires c !in a
    ensures Find(a + [c] + b, c) == |a|
  {
    var s := a + [c] + b;
    if a != [] {
      assert s[0] == a[0];
      assert s[1..] == a[1..] + [c] + b;
      FindAfter(a[1..], c, b);
    }
  }

  lemma {:induction false} NoDelimiter(a: string, c: char)
    requires c !in a
    ensures Find(a, c) == |a| && Head(a, c) == a && Tail(a, c) == []
  {
    if a != [] {
      NoDelimiter(a[1..], c);
    }
    assert a[..|a|] == a;
  }

  //////////////////////////////////////////////////////////////////////
  // SCION addresses
  //////////////////////////////////////////////////////////////////////

  /** The groups of s folded into acc, 16 bits each, in 64-bit arithmetic; None when a group does not fit in 64 bits. */
  function FoldGroups(s: string, acc: u64): Option<u64>
    decreases |s|
  {
    if s == [] then Some(acc) else
    var v := Stoull(Head(s, ':'));
    if v >= 0x1_0000_0000_0000_0000 then None
    else FoldGroups(Tail(s, ':'), (acc * 0x1_0000 + v) % 0x1_0000_0000_0000_0000)
  }

  /** None is the exception std::stoi or std::stoull throws for a number out of range. */
  function ScionAddress(address: string): Option<(u16, u64)> {
    var isd := Stoull(Head(address, '-'));
    if isd >= 0x8000_0000 then None else
    var asn := FoldGroups(Tail(address, '-'), 0);
    if asn.None? then None else Some((isd % 0x1_0000, asn.value))
  }

  method SplitScionAddress(address: string) returns (r: Option<(u16, u64)>)
    ensures r == ScionAddress(address)
  {
    hide Stoull;
    hide Head;
    hide Tail;
    var isd := Stoull(Head(address, '-'));
    if isd >= 0x8000_0000 { return None; }
    var stream := Tail(address, '-');
    var asAddress: u64 := 0;
    while stream != []
      invariant FoldGroups(stream, asAddress) == FoldGroups(Tail(address, '-'), 0)
      decreases |stream|
    {
      var v := Stoull(Head(stream, ':'));
      if v >= 0x1_0000_0000_0000_0000 { return None; }
      asAddress := (asAddress * 0x1_0000 + v) % 0x1_0000_0000_0000_0000;
      stream := Tail(stream, ':');
    }
    r := Some((isd % 0x1_0000, asAddress));
  }

  /** How SCION writes an ISD-AS pair: hexadecimal groups of 16 bits. */
  function AddressText(isd: u16, asn: u48): string {
    Hex(isd) + ['-'] + GroupsText(asn)
  }

  function GroupsText(asn: u48): string {
    Hex(asn / 0x1_0000 / 0x1_0000) + [':'] + (Hex(asn / 0x1_0000 % 0x1_0000) + [':'] + Hex(asn % 0x1_0000))
  }

  lemma FoldGroup(v: u16, rest: string, acc: u32)
    ensures FoldGroups(Hex(v) + [':'] + rest, acc) == FoldGroups(rest, acc * 0x1_0000 + v)
    ensures FoldGroups(Hex(v), acc) == Some(acc * 0x1_0000 + v)
  {
    hide Stoull;
    hide Hex;
    hide Head;
    hide Tail;
    hide Digits;
    hide ValueOf;
    HexIsDigits(v);
    StoullHex(v);
    SplitAt(Hex(v), ':', rest);
    NoDelimiter(Hex(v), ':');
    assert FoldGroups([], acc * 0x1_0000 + v) == Some(acc * 0x1_0000 + v);
  }

  /** Splitting recovers both numbers. */
  lemma AddressRoundTrip(isd: u16, asn: u48)
    ensures ScionAddress(AddressText(isd, asn)) == Some((isd, asn))
  {
    hide Stoull;
    hide Hex;
    hide FoldGroups;
    var a, b, c := asn / 0x1_0000 / 0x1_0000, asn / 0x1_0000 % 0x1_0000, asn % 0x1_0000;
    HexIsDigits(isd);
    StoullHex(isd);
    SplitAt(Hex(isd), '-', GroupsText(asn));
    FoldGroup(a, Hex(b) + [':'] + Hex(c), 0);
    FoldGroup(b, Hex(c), a);
    FoldGroup(c, [], a * 0x1_0000 + b);
  }

  /** Hexadecimal numbers between colons. */
  function GroupList(gs: seq<nat>): string
    requires gs != []
  {
    if |gs| == 1 then Hex(gs[0]) else Hex(gs[0]) + [':'] + GroupList(gs[1..])
  }

  /** Their value as digits of 16 bits, however large they are. */
  function Positional(gs: seq<nat>): nat {
    if gs == [] then 0 else Positional(gs[..|gs| - 1]) * 0x1_0000 + gs[|gs| - 1]
  }

  predicate AllFit(gs: seq<nat>) {
    forall i :: 0 <= i < |gs| ==> gs[i] < 0x1_0000_0000_0000_0000
  }

  /** One more digit, in 64 bits. */
  lemma WrapOnce(p: nat, v: nat)
    ensures (p % 0x1_0000_0000_0000_0000 * 0x1_0000 + v) % 0x1_0000_0000_0000_0000
         == (p * 0x1_0000 + v) % 0x1_0000_0000_0000_0000
  {
    var m := 0x1_0000_0000_0000_0000;
    var low := p % m * 0x1_0000 + v;
    assert p * 0x1_0000 + v == (p / m * 0x1_0000 + low / m) * m + low % m;
    DivModUnique(p / m * 0x1_0000 + low / m, m, low % m);
  }

  lemma FirstGroup(v: nat, s: string, acc: u64)
    requires s == Hex(v) || (|s| > |Hex(v)| && s == Hex(v) + [':'] + s[|Hex(v)| + 1..])
    ensures var rest := if s == Hex(v) then [] else s[|Hex(v)| + 1..];
      FoldGroups(s, acc) == if v >= 0x1_0000_0000_0000_0000 then None
                            else FoldGroups(rest, (acc * 0x1_0000 + v) % 0x1_0000_0000_0000_0000)
  {
    hide Stoull;
    hide Hex;
    hide Head;
    hide Tail;
    hide Digits;
    hide ValueOf;
    HexIsDigits(v);
    StoullHex(v);
    if s == Hex(v) {
      NoDelimiter(s, ':');
    } else {
      SplitAt(Hex(v), ':', s[|Hex(v)| + 1..]);
    }
  }

  lemma {:induction false} FoldList(before: seq<nat>, gs: seq<nat>)
    requires gs != []
    ensures FoldGroups(GroupList(gs), Positional(before) % 0x1_0000_0000_0000_0000)
         == if AllFit(gs) then Some(Positional(before + gs) % 0x1_0000_0000_0000_0000) else None
    decreases gs
  {
    hide FoldGroups;
    hide Hex;
    var s, acc := GroupList(gs), Positional(before) % 0x1_0000_0000_0000_0000;
    assert |gs| > 1 ==> s[|Hex(gs[0])| + 1..] == GroupList(gs[1..]);
    FirstGroup(gs[0], s, acc);
    WrapOnce(Positional(before), gs[0]);
    assert (before + [gs[0]])[..|before|] == before;
    if |gs| == 1 {
      assert gs == [gs[0]];
      NoGroups(Positional(before + gs) % 0x1_0000_0000_0000_0000);
    } else {
      FoldList(before + [gs[0]], gs[1..]);
      assert before + [gs[0]] + gs[1..] == before + gs;
      assert forall i :: 0 < i < |gs| ==> gs[i] == gs[1..][i - 1];
    }
  }

  lemma NoGroups(acc: u64)
    ensures FoldGroups([], acc) == Some(acc)
  {
  }

  /** Any number as ISD, any numbers as groups: the exception is thrown if and only if the ISD does not fit into a
      signed 32-bit number or a group into 64 bits; otherwise the low 16 and 64 bits are left. */
  lemma AnyAddress(isd: nat, gs: seq<nat>)
    requires gs != []
    ensures ScionAddress(Hex(isd) + ['-'] + GroupList(gs))
         == if isd < 0x8000_0000 && AllFit(gs)
            then Some((isd % 0x1_0000, Positional(gs) % 0x1_0000_0000_0000_0000)) else None
  {
    assert Positional([]) == 0;
    hide AllFit;
    hide Positional;
    hide GroupList;
    hide Stoull;
    hide Hex;
    hide FoldGroups;
    hide Digits;
    hide ValueOf;
    HexIsDigits(isd);
    StoullHex(isd);
    SplitAt(Hex(isd), '-', GroupList(gs));
    FoldList([], gs);
    assert [] + gs == gs;
  }

  /** ISD and AS in one 64-bit word (readIntTable.h), and back (int.cpp). */
  function PackAddress(isd: u16, asn: u64): u64 {
    (isd * 0x1_0000_0000_0000 + asn) % 0x1_0000_0000_0000_0000
  }

  lemma PackRoundTrip(isd: u16, asn: u48)
    ensures PackAddress(isd, asn) / 0x1_0000_0000_0000 == isd
    ensures PackAddress(isd, asn) % 0x1_0000_0000_0000 == asn
  {
  }

  //////////////////////////////////////////////////////////////////////
  // Extraction from a string stream
  //////////////////////////////////////////////////////////////////////

  predicate IsSpace(c: char) {
    c == ' ' || '\t' <= c <= '\r'
  }

  function SkipSpace(s: string): string {
    if s != [] && IsSpace(s[0]) then SkipSpace(s[1..]) else s
  }

  /** The characters up to the next white space. */
  function Word(s: string): (w: string)
    ensures |w| <= |s|
  {
    if s == [] || IsSpace(s[0]) then [] else [s[0]] + Word(s[1..])
  }

  /** What `>>` puts into a 16-bit number that was zero, what is left of the stream, and whether it is still good. */
  datatype Field = Field(value: u16, rest: string, good: bool)

  /** `>>` in std::hex mode: an optional sign and 0x, then the digits. Without digits the number is zero, beyond 16 bits
      it is the largest; both leave the stream failed. */
  function HexField(s: string): Field {
    var t := SkipSpace(s);
    if t == [] then Field(0, t, false) else
    HexNumber(SkipPrefix(if t[0] in "+-" then t[1..] else t), t[0] == '-')
  }

  function SkipPrefix(u: string): string {
    if |u| >= 2 && u[0] == '0' && u[1] in "xX" then u[2..] else u
  }

  function HexNumber(v: string, negative: bool): Field {
    var k := Digits(v);
    DigitsPrefix(v, k);
    var n := ValueOf(v[..k]);
    if k == 0 then Field(0, v, false)
    else if n > 0xffff then Field(0xffff, v[k..], false)
    else Field(if negative then (0x1_0000 - n) % 0x1_0000 else n, v[k..], true)
  }

  predicate NoSpace(s: string) {
    forall i :: 0 <= i < |s| ==> !IsSpace(s[i])
  }

  lemma {:induction false} WordOf(w: string, rest: string)
    requires NoSpace(w) && (rest == [] || IsSpace(rest[0]))
    ensures Word(w + rest) == w && (w + rest)[|w|..] == rest
  {
    if w == [] {
      assert w + rest == rest;
    } else {
      assert (w + rest)[1..] == w[1..] + rest;
      WordOf(w[1..], rest);
      assert w == [w[0]] + w[1..];
    }
  }

  lemma {:induction false} DigitsNoSpace(s: string)
    requires Digits(s) == |s|
    ensures NoSpace(s)
  {
    if s != [] {
      DigitsNoSpace(s[1..]);
      forall i | 0 <= i < |s|
        ensures !IsSpace(s[i])
      {
        if i > 0 {
          assert s[i] == s[1..][i - 1];
        }
      }
    }
  }

  lemma AddressNoSpace(isd: u16, asn: u48)
    ensures NoSpace(AddressText(isd, asn)) && AddressText(isd, asn) != [] && AddressText(isd, asn)[0] != '#'
    ensures '\n' !in AddressText(isd, asn)
  {
    hide Hex;
    hide ValueOf;
    var a, b, c := asn / 0x1_0000 / 0x1_0000, asn / 0x1_0000 % 0x1_0000, asn % 0x1_0000;
    HexIsDigits(isd);
    HexIsDigits(a);
    HexIsDigits(b);
    HexIsDigits(c);
    DigitsNoSpace(Hex(isd));
    DigitsNoSpace(Hex(a));
    DigitsNoSpace(Hex(b));
    DigitsNoSpace(Hex(c));
    assert AddressText(isd, asn)[0] == Hex(isd)[0];
  }

  function Blanks(k: nat): string {
    seq(k, i => ' ')
  }

  lemma {:induction false} SkipBlanks(k: nat, s: string)
    requires s == [] || !IsSpace(s[0])
    ensures SkipSpace(Blanks(k) + s) == s
  {
    if k == 0 {
      assert Blanks(k) + s == s;
    } else {
      assert (Blanks(k) + s)[1..] == Blanks(k - 1) + s;
      SkipBlanks(k - 1, s);
    }
  }

  /** What a 16-bit number becomes: the largest, and no more is read, when it is out of range. */
  function Clipped(n: nat, rest: string): Field {
    if n > 0xffff then Field(0xffff, rest, false) else Field(n, rest, true)
  }

  /** After any number of blanks, 0x and the digits of a number, whatever follows them. */
  lemma HexFieldDigits(k: nat, ds: string, rest: string)
    requires ds != [] && Digits(ds) == |ds| && (rest == [] || Digit(rest[0]).None?)
    ensures HexField(Blanks(k) + "0x" + ds + rest) == Clipped(ValueOf(ds), rest)
  {
    hide SkipSpace;
    hide HexNumber;
    hide ValueOf;
    hide Blanks;
    hide Digits;
    hide Digit;
    var t := ['0', 'x'] + (ds + rest);
    assert Blanks(k) + "0x" + ds + rest == Blanks(k) + t;
    SkipBlanks(k, t);
    HexNumberDigits(ds, rest);
    Prefixed(ds + rest);
  }

  lemma Prefixed(s: string)
    ensures var t := ['0', 'x'] + s;
      t != [] && t[0] == '0' && SkipPrefix(t) == s
  {
    assert (['0', 'x'] + s)[2..] == s;
  }

  lemma HexNumberDigits(ds: string, rest: string)
    requires ds != [] && Digits(ds) == |ds| && (rest == [] || Digit(rest[0]).None?)
    ensures HexNumber(ds + rest, false) == Clipped(ValueOf(ds), rest)
  {
    DigitsConcat(ds, rest);
    hide ValueOf;
    assert (ds + rest)[..|ds|] == ds && (ds + rest)[|ds|..] == rest;
  }

  /** A number written after a blank with its prefix is read back. */
  lemma HexFieldOf(v: nat, rest: string)
    requires rest == [] || Digit(rest[0]).None?
    ensures HexField(" 0x" + Hex(v) + rest) == Clipped(v, rest)
  {
    hide Hex;
    hide ValueOf;
    hide HexField;
    HexIsDigits(v);
    HexFieldDigits(1, Hex(v), rest);
    assert Blanks(1) + "0x" == " 0x";
  }

  //////////////////////////////////////////////////////////////////////
  // Topic names
  //////////////////////////////////////////////////////////////////////

  function TopicName(asAddr: u64, nodeID: u32): string {
    "AS" + (Hex(asAddr / 0x1_0000 / 0x1_0000 % 0x1_0000) + ['_'] + (Hex(asAddr / 0x1_0000 % 0x1_0000) + ['_']
    + (Hex(asAddr % 0x1_0000) + ['-'] + Hex(nodeID))))
  }

  /** Different (AS, node) pairs report to different topics. */
  lemma TopicInjective(asA: u64, nodeA: u32, asB: u64, nodeB: u32)
    requires TopicName(asA, nodeA) == TopicName(asB, nodeB)
    ensures asA % 0x1_0000_0000_0000 == asB % 0x1_0000_0000_0000 && nodeA == nodeB
  {
    hide Hex;
    var ta, tb := TopicName(asA, nodeA)[2..], TopicName(asB, nodeB)[2..];
    TopicParts(asA, nodeA);
    TopicParts(asB, nodeB);
    assert Stoull(Head(ta, '_')) == Stoull(Head(tb, '_'));
    GroupsDetermine(asA, asB);
  }

  lemma TopicParts(asAddr: u64, nodeID: u32)
    ensures var t := TopicName(asAddr, nodeID)[2..];
      && Stoull(Head(t, '_')) == asAddr / 0x1_0000 / 0x1_0000 % 0x1_0000
      && Stoull(Head(Tail(t, '_'), '_')) == asAddr / 0x1_0000 % 0x1_0000
      && Stoull(Head(Tail(Tail(t, '_'), '_'), '-')) == asAddr % 0x1_0000
      && Stoull(Tail(Tail(Tail(t, '_'), '_'), '-')) == nodeID
  {
    hide Stoull;
    hide Hex;
    var a, b, c := asAddr / 0x1_0000 / 0x1_0000 % 0x1_0000, asAddr / 0x1_0000 % 0x1_0000, asAddr % 0x1_0000;
    HexIsDigits(a);
    HexIsDigits(b);
    HexIsDigits(c);
    StoullHex(a);
    StoullHex(b);
    StoullHex(c);
    StoullHex(nodeID);
    var t2 := Hex(c) + ['-'] + Hex(nodeID);
    var t1 := Hex(b) + ['_'] + t2;
    var t := Hex(a) + ['_'] + t1;
    assert TopicName(asAddr, nodeID)[2..] == t;
    SplitAt(Hex(a), '_', t1);
    SplitAt(Hex(b), '_', t2);
    SplitAt(Hex(c), '-', Hex(nodeID));
  }

  lemma GroupsDetermine(x: u64, y: u64)
    requires x / 0x1_0000 / 0x1_0000 % 0x1_0000 == y / 0x1_0000 / 0x1_0000 % 0x1_0000
    requires x / 0x1_0000 % 0x1_0000 == y / 0x1_0000 % 0x1_0000 && x % 0x1_0000 == y % 0x1_0000
    ensures x % 0x1_0000_0000_0000 == y % 0x1_0000_0000_0000
  {
    Groups(x);
    Groups(y);
  }

  lemma Groups(x: u64)
    ensures x % 0x1_0000_0000_0000
         == x / 0x1_0000 / 0x1_0000 % 0x1_0000 * 0x1_0000_0000 + x / 0x1_0000 % 0x1_0000 * 0x1_0000 + x % 0x1_0000
  {
    var q := x / 0x1_0000 / 0x1_0000 / 0x1_0000;
    assert x == q * 0x1_0000_0000_0000 + (x / 0x1_0000 / 0x1_0000 % 0x1_0000 * 0x1_0000_0000
                                           + x / 0x1_0000 % 0x1_0000 * 0x1_0000 + x % 0x1_0000);
  }
}
