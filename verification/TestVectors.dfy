/** The values that the repository's own tests and documentation expect (tests/test_bitstring.cpp, tests/test_int.cpp,
    telemetry/kafka/README.md). */
module TestVectors {
  import opened Bits
  import opened Text
  import opened IntTables

  //////////////////////////////////////////////////////////////////////
  // Byte strings
  //////////////////////////////////////////////////////////////////////

  const COUNTING: seq<byte> := [1, 2, 3, 4, 5, 6, 7, 8]

  lemma NatOfTwo(a: byte, b: byte)
    ensures NatOf([a, b]) == a as int * 256 + b
  {
    assert [a, b][..1] == [a] && [a][..0] == [];
    assert NatOf([a]) == a;
  }

  lemma NatOfFour(a: byte, b: byte, c: byte, d: byte)
    ensures NatOf([a, b, c, d]) == ((a as int * 256 + b) * 256 + c) * 256 + d
  {
    NatOfTwo(a, b);
    assert [a, b, c, d][..3] == [a, b, c] && [a, b, c][..2] == [a, b];
  }

  lemma NatOfEight(a: seq<byte>, b: seq<byte>)
    requires |a| == |b| == 4
    ensures NatOf(a + b) == NatOf(a) * 0x1_0000_0000 + NatOf(b)
  {
    Pow256Values();
    NatOfConcat(a, b);
  }

  /** fromBitstring of 2, 4 and 8 bytes, and of a string that is too short. */
  lemma FromBitstringVectors()
    ensures NatOf(Resize(2, COUNTING)) == 0x0708
    ensures NatOf(Resize(4, COUNTING)) == 0x05060708
    ensures NatOf(Resize(8, COUNTING)) == 0x0102030405060708
    ensures NatOf(Resize(4, COUNTING[..1])) == 0x01
  {
    assert Resize(2, COUNTING) == [7, 8] && Resize(4, COUNTING) == [5, 6, 7, 8];
    assert Resize(8, COUNTING) == [1, 2, 3, 4] + [5, 6, 7, 8];
    assert Resize(4, COUNTING[..1]) == [0, 0, 0, 1];
    NatOfTwo(7, 8);
    NatOfFour(1, 2, 3, 4);
    NatOfFour(5, 6, 7, 8);
    NatOfFour(0, 0, 0, 1);
    NatOfEight([1, 2, 3, 4], [5, 6, 7, 8]);
  }

  /** toBitstring of 8, 4 and 2 bytes, and of a value that is shorter. */
  lemma ToBitstringVectors()
    ensures BytesOf(8, 0x0102030405060708) == COUNTING
    ensures BytesOf(4, 0x01020304) == [1, 2, 3, 4]
    ensures BytesOf(2, 0x01020304) == [3, 4]
    ensures BytesOf(8, 0x01020304) == [0, 0, 0, 0, 1, 2, 3, 4]
  {
    hide BytesOf;
    hide NatOf;
    FromBitstringVectors();
    assert Resize(8, COUNTING) == COUNTING;
    ReencodeResizes(8, COUNTING);
    var b := [1, 2, 3, 4];
    NatOfFour(1, 2, 3, 4);
    ReencodeResizes(4, b);
    ReencodeResizes(2, b);
    ReencodeResizes(8, b);
    assert Resize(4, b) == b && Resize(2, b) == [3, 4] && Resize(8, b) == [0, 0, 0, 0, 1, 2, 3, 4];
  }

  const NUMBERS: seq<byte> := [0, 0, 0, 0, 0, 0, 0, 0, 1, 1, 2, 3, 5, 8, 0x0d, 0x15]

  /** takeUint64, takeUint32, takeUint16 and takeUint8. */
  lemma TakeVectors()
    ensures Take(8, NUMBERS, 0) == 0 && Take(8, NUMBERS, 8) == 0x0101020305080d15
    ensures Take(4, NUMBERS, 6) == 0x00000101 && Take(2, NUMBERS, 14) == 0x0d15 && Take(1, NUMBERS, 15) == 0x15
  {
    assert NUMBERS[0..8] == [0, 0, 0, 0] + [0, 0, 0, 0];
    assert NUMBERS[8..16] == [1, 1, 2, 3] + [5, 8, 0x0d, 0x15];
    assert NUMBERS[6..10] == [0, 0, 1, 1] && NUMBERS[14..16] == [0x0d, 0x15];
    assert NUMBERS[15..16] == [0x15] && [0x15][..0] == [];
    NatOfFour(0, 0, 0, 0);
    NatOfFour(1, 1, 2, 3);
    NatOfFour(5, 8, 0x0d, 0x15);
    NatOfFour(0, 0, 1, 1);
    NatOfTwo(0x0d, 0x15);
    NatOfEight([0, 0, 0, 0], [0, 0, 0, 0]);
    NatOfEight([1, 1, 2, 3], [5, 8, 0x0d, 0x15]);
    assert NatOf(NUMBERS[15..16]) == 0x15;
  }

  //////////////////////////////////////////////////////////////////////
  // Addresses and topics
  //////////////////////////////////////////////////////////////////////

  lemma HexOf(n: nat)
    ensures n < 16 ==> Hex(n) == [HEX[n]]
    ensures 16 <= n < 256 ==> Hex(n) == [HEX[n / 16], HEX[n % 16]]
    ensures 256 <= n < 4096 ==> Hex(n) == [HEX[n / 16 / 16], HEX[n / 16 % 16], HEX[n % 16]]
    ensures 4096 <= n < 0x1_0000 ==>
              Hex(n) == [HEX[n / 16 / 16 / 16], HEX[n / 16 / 16 % 16], HEX[n / 16 % 16], HEX[n % 16]]
  {
    if n >= 16 {
      assert Hex(n) == Hex(n / 16) + [HEX[n % 16]];
      if n >= 256 {
        assert Hex(n / 16) == Hex(n / 16 / 16) + [HEX[n / 16 % 16]];
        if n >= 4096 {
          assert Hex(n / 16 / 16) == Hex(n / 16 / 16 / 16) + [HEX[n / 16 / 16 % 16]];
        }
      }
    }
  }

  lemma HexVectors()
    ensures Hex(0) == "0" && Hex(1) == "1" && Hex(4) == "4" && Hex(0xf) == "f" && Hex(0x20) == "20"
    ensures Hex(0xfa) == "fa" && Hex(0x100) == "100" && Hex(0x300) == "300" && Hex(0xff00) == "ff00"
  {
    HexOf(0);
    HexOf(1);
    HexOf(4);
    HexOf(0xf);
    HexOf(0x20);
    HexOf(0xfa);
    HexOf(0x100);
    HexOf(0x300);
    HexOf(0xff00);
    hide Hex;
  }

  /** An address from its ISD and the three groups of its AS. */
  lemma AddressOf(isd: u16, asn: u48, a: u16, b: u16, c: u16)
    requires asn / 0x1_0000 / 0x1_0000 == a && asn / 0x1_0000 % 0x1_0000 == b && asn % 0x1_0000 == c
    ensures AddressText(isd, asn) == Hex(isd) + ['-'] + (Hex(a) + [':'] + (Hex(b) + [':'] + Hex(c)))
  {
    hide Hex;
  }

  /** How the addresses of the tests are written. */
  lemma AddressTexts()
    ensures AddressText(0xfa, 0xff00_0000_0100) == "fa-ff00:0:100"
    ensures AddressText(1, 0xff00_0000_0001) == "1-ff00:0:1"
    ensures AddressText(1, 0xff00_0000_0020) == "1-ff00:0:20"
    ensures AddressText(1, 0xff00_ff00_0300) == "1-ff00:ff00:300"
    ensures AddressText(0xf, 0xff00_0000_0004) == "f-ff00:0:4"
  {
    HexVectors();
    hide Hex;
    hide AddressText;
    AddressOf(0xfa, 0xff00_0000_0100, 0xff00, 0, 0x100);
    AddressOf(1, 0xff00_0000_0001, 0xff00, 0, 1);
    AddressOf(1, 0xff00_0000_0020, 0xff00, 0, 0x20);
    AddressOf(1, 0xff00_ff00_0300, 0xff00, 0xff00, 0x300);
    AddressOf(0xf, 0xff00_0000_0004, 0xff00, 0, 4);
  }

  /** splitScionAddress of the empty string and of an address. */
  lemma AddressVectors()
    ensures ScionAddress("") == Some((0, 0))
    ensures ScionAddress("fa-ff00:0:100") == Some((0xfa, 0xff00_0000_0100))
  {
    AddressTexts();
    AddressRoundTrip(0xfa, 0xff00_0000_0100);
    hide AddressText;
    Empty();
  }

  lemma Empty()
    ensures ScionAddress("") == Some((0, 0))
  {
    assert Head("", '-') == "" && Tail("", '-') == "";
    assert Digits("") == 0 && Stoull("") == 0;
  }

  /** A topic from the three groups of the AS. */
  lemma TopicOf(asAddr: u64, nodeID: u32, a: u16, b: u16, c: u16)
    requires asAddr / 0x1_0000 / 0x1_0000 % 0x1_0000 == a && asAddr / 0x1_0000 % 0x1_0000 == b && asAddr % 0x1_0000 == c
    ensures TopicName(asAddr, nodeID) == "AS" + (Hex(a) + ['_'] + (Hex(b) + ['_'] + (Hex(c) + ['-'] + Hex(nodeID))))
  {
    hide Hex;
  }

  /** The topics that are to be created for node id 1 in two ASes. */
  lemma TopicVectors()
    ensures TopicName(PackAddress(1, 0xff00_0000_0001), 1) == "ASff00_0_1-1"
    ensures TopicName(PackAddress(1, 0xff00_0000_0004), 1) == "ASff00_0_4-1"
  {
    HexVectors();
    hide Hex;
    hide TopicName;
    TopicOf(PackAddress(1, 0xff00_0000_0001), 1, 0xff00, 0, 1);
    TopicOf(PackAddress(1, 0xff00_0000_0004), 1, 0xff00, 0, 4);
  }

  //////////////////////////////////////////////////////////////////////
  // A table
  //////////////////////////////////////////////////////////////////////

  /** An address, k blanks, and two numbers as 0x and digits. */
  function TableLine(address: string, k: nat, b1: string, b2: string): string {
    address + (Blanks(k) + "0x" + b1 + (Blanks(1) + "0x" + b2))
  }

  /** The lines of tests/int_table2.txt. */
  const LINES: seq<string> := [
    "#Dst AS        | INT  | SCION",
    "#-----------------------",
    "1-ff00:0:1",
    TableLine("1-ff00:0:20", 5, "0000", "0000"),
    TableLine("1-ff00:ff00:300", 1, "8d00", "0001"),
    TableLine("f-ff00:0:4", 6, "ffff", "ffff")]

  function Joined(lines: seq<string>): string {
    if lines == [] then [] else lines[0] + ['\n'] + Joined(lines[1..])
  }

  lemma {:induction false} LinesOfJoined(lines: seq<string>)
    requires forall i :: 0 <= i < |lines| ==> '\n' !in lines[i]
    ensures FileLines(Joined(lines)) == seq(|lines|, i requires 0 <= i < |lines| => LineOf(lines[i]))
  {
    hide LineOf;
    if lines != [] {
      LinesOfJoined(lines[1..]);
      OneLine(lines[0], Joined(lines[1..]));
    }
  }

  lemma OneLine(text: string, file: string)
    requires '\n' !in text
    ensures FileLines(text + ['\n'] + file) == [LineOf(text)] + FileLines(file)
  {
    hide LineOf;
    SplitAt(text, '\n', file);
  }

  lemma FourDigits(a: char, b: char, c: char, d: char)
    requires Digit(a).Some? && Digit(b).Some? && Digit(c).Some? && Digit(d).Some?
    ensures var ds := [a, b, c, d];
      && Digits(ds) == 4
      && ValueOf(ds) == ((Digit(a).value * 16 + Digit(b).value) * 16 + Digit(c).value) * 16 + Digit(d).value
  {
    var ds := [a, b, c, d];
    assert ds[1..] == [b, c, d] && [b, c, d][1..] == [c, d] && [c, d][1..] == [d] && [d][1..] == [];
    assert Digits([d]) == 1 && Digits([c, d]) == 2 && Digits([b, c, d]) == 3;
    assert ds[..3] == [a, b, c] && [a, b, c][..2] == [a, b] && [a, b][..1] == [a] && [a][..0] == [];
    assert [b, c][1..] == [c] && [c][1..] == [] && [a, b, c][1..] == [b, c] && [a, b][1..] == [b] && [b][1..] == [];
    assert Digits([c]) == 1 && Digits([b, c]) == 2 && Digits([b]) == 1 && Digits([a]) == 1;
    assert Digits([a, b]) == 2 && Digits([a, b, c]) == 3;
    assert ValueOf([a]) == Digit(a).value;
    assert ValueOf([a, b]) == 16 * ValueOf([a]) + Digit(b).value;
    assert ValueOf([a, b, c]) == 16 * ValueOf([a, b]) + Digit(c).value;
  }

  /** A line with the address, k blanks, and both bitmaps as 0x and four digits. */
  lemma FullLine(isd: u16, asn: u48, k: nat, b1: string, b2: string)
    requires k >= 1 && |b1| == |b2| == 4 && Digits(b1) == Digits(b2) == 4
    requires ValueOf(b1) <= 0xffff && ValueOf(b2) <= 0xffff
    ensures LineOf(TableLine(AddressText(isd, asn), k, b1, b2))
         == Entry(AddressText(isd, asn), ValueOf(b1), ValueOf(b2))
    ensures '\n' !in TableLine(AddressText(isd, asn), k, b1, b2)
  {
    hide ValueOf;
    hide HexField;
    hide AddressText;
    hide Word;
    hide Digits;
    AddressNoSpace(isd, asn);
    DigitsNoSpace(b1);
    DigitsNoSpace(b2);
    var second := Blanks(1) + "0x" + b2;
    assert second[0] == ' ';
    assert second + [] == second;
    HexFieldDigits(1, b2, []);
    HexFieldDigits(k, b1, second);
    var rest := Blanks(k) + "0x" + b1 + second;
    assert rest[0] == Blanks(k)[0] == ' ';
    var a := AddressText(isd, asn);
    assert (a + rest)[0] == a[0];
    WordOf(a, rest);
  }

  /** A line that ends after the address. */
  lemma ShortLine(isd: u16, asn: u48)
    ensures LineOf(AddressText(isd, asn)) == Entry(AddressText(isd, asn), 0, 0)
  {
    hide AddressText;
    AddressNoSpace(isd, asn);
    var a := AddressText(isd, asn);
    WordOf(a, []);
    assert a + [] == a;
    assert SkipSpace([]) == [];
    hide Word;
    hide HexNumber;
  }

  lemma Rows(isd: u16, asn: u48, b1: u16, b2: u16)
    ensures RowOf(Entry(AddressText(isd, asn), b1, b2)) == Some(Row(PackAddress(isd, asn), b1, b2))
  {
    AddressRoundTrip(isd, asn);
    hide ScionAddress;
    hide AddressText;
  }

  lemma FourthLine()
    ensures LineOf(LINES[3]) == Entry("1-ff00:0:20", 0, 0) && '\n' !in LINES[3]
  {
    hide LineOf;
    hide AddressText;
    hide TableLine;
    AddressTexts();
    FourDigits('0', '0', '0', '0');
    FullLine(1, 0xff00_0000_0020, 5, "0000", "0000");
  }

  lemma FifthLine()
    ensures LineOf(LINES[4]) == Entry("1-ff00:ff00:300", 0x8d00, 1) && '\n' !in LINES[4]
  {
    hide LineOf;
    hide AddressText;
    hide TableLine;
    AddressTexts();
    FourDigits('8', 'd', '0', '0');
    FourDigits('0', '0', '0', '1');
    FullLine(1, 0xff00_ff00_0300, 1, "8d00", "0001");
  }

  lemma SixthLine()
    ensures LineOf(LINES[5]) == Entry("f-ff00:0:4", 0xffff, 0xffff) && '\n' !in LINES[5]
  {
    hide LineOf;
    hide AddressText;
    hide TableLine;
    AddressTexts();
    FourDigits('f', 'f', 'f', 'f');
    FullLine(0xf, 0xff00_0000_0004, 6, "ffff", "ffff");
  }

  lemma ThirdLine()
    ensures LineOf(LINES[2]) == Entry("1-ff00:0:1", 0, 0) && '\n' !in LINES[2]
  {
    hide LineOf;
    hide AddressText;
    AddressTexts();
    AddressNoSpace(1, 0xff00_0000_0001);
    ShortLine(1, 0xff00_0000_0001);
  }

  lemma FirstLines()
    ensures LineOf(LINES[0]) == LineOf(LINES[1]) == Comment && '\n' !in LINES[0] && '\n' !in LINES[1]
  {
    hide Word;
    hide HexField;
  }

  const ENTRIES: seq<Line> := [
    Comment, Comment, Entry("1-ff00:0:1", 0, 0), Entry("1-ff00:0:20", 0, 0), Entry("1-ff00:ff00:300", 0x8d00, 1),
    Entry("f-ff00:0:4", 0xffff, 0xffff)]

  lemma TableLines()
    ensures FileLines(Joined(LINES)) == ENTRIES
  {
    hide LineOf;
    hide FileLines;
    hide Joined;
    hide TableLine;
    FirstLines();
    ThirdLine();
    FourthLine();
    FifthLine();
    SixthLine();
    LinesOfJoined(LINES);
  }

  const TABLE: seq<Row> := [
    Row(0x0001_ff00_0000_0001, 0, 0), Row(0x0001_ff00_0000_0020, 0, 0), Row(0x0001_ff00_ff00_0300, 0x8d00, 1),
    Row(0x000f_ff00_0000_0004, 0xffff, 0xffff)]

  /** readIntTable of that file. */
  lemma TableVector()
    ensures RowsOf(FileLines(Joined(LINES))) == Some(TABLE)
  {
    hide FileLines;
    hide RowsOf;
    hide Joined;
    hide RowOf;
    hide LINES;
    TableLines();
    TableRows();
    NoRows();
    RowsNext(ENTRIES, 0);
    RowsNext(ENTRIES, 1);
    RowsNext(ENTRIES, 2);
    RowsNext(ENTRIES, 3);
    RowsNext(ENTRIES, 4);
    RowsNext(ENTRIES, 5);
    assert ENTRIES[..6] == ENTRIES && ENTRIES[..0] == [];
    assert [] + [TABLE[0]] + [TABLE[1]] + [TABLE[2]] + [TABLE[3]] == TABLE;
  }

  lemma TableRows()
    ensures RowOf(ENTRIES[2]) == Some(TABLE[0]) && RowOf(ENTRIES[3]) == Some(TABLE[1])
    ensures RowOf(ENTRIES[4]) == Some(TABLE[2]) && RowOf(ENTRIES[5]) == Some(TABLE[3])
  {
    hide AddressText;
    hide RowOf;
    hide PackAddress;
    AddressTexts();
    Packed();
    Rows(1, 0xff00_0000_0001, 0, 0);
    Rows(1, 0xff00_0000_0020, 0, 0);
    Rows(1, 0xff00_ff00_0300, 0x8d00, 1);
    Rows(0xf, 0xff00_0000_0004, 0xffff, 0xffff);
  }

  lemma Packed()
    ensures PackAddress(1, 0xff00_0000_0001) == 0x0001_ff00_0000_0001
    ensures PackAddress(1, 0xff00_0000_0020) == 0x0001_ff00_0000_0020
    ensures PackAddress(1, 0xff00_ff00_0300) == 0x0001_ff00_ff00_0300
    ensures PackAddress(0xf, 0xff00_0000_0004) == 0x000f_ff00_0000_0004
  {
  }

  lemma RowsNext(ls: seq<Line>, n: nat)
    requires n < |ls| && RowsOf(ls[..n]).Some?
    ensures RowsOf(ls[..n + 1]) == if ls[n].Comment? then RowsOf(ls[..n])
                                   else if RowOf(ls[n]).None? then None
                                   else Some(RowsOf(ls[..n]).value + [RowOf(ls[n]).value])
  {
    hide RowOf;
    hide RowsOf;
    RowsMore(ls[..n], ls[n]);
    assert ls[..n + 1] == ls[..n] + [ls[n]];
  }
}
