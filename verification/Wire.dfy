/** The protobuf wire primitives the generated report code calls
    (Protocol Buffers "Encoding": Base 128 Varints, Message Structure). */
module Wire {
  import opened Bits

  type i32 = i: int | -0x8000_0000 <= i < 0x8000_0000

  /** Largest size of a length-delimited field. */
  const MAX_SIZE: nat := 0x7fff_ffff

  function Varint(v: nat): (b: seq<byte>)
    ensures |b| >= 1
  {
    if v < 128 then [v] else [128 + v % 128] + Varint(v / 128)
  }

  /** A varint of at most k bytes. */
  function ReadVarint(k: nat, x: seq<byte>): (r: Option<(nat, seq<byte>)>)
    ensures r.Some? ==> |r.value.1| < |x|
  {
    if k == 0 || |x| == 0 then None
    else if x[0] < 128 then Some((x[0], x[1..]))
    else
      var r := ReadVarint(k - 1, x[1..]);
      if r.None? then None else Some((x[0] - 128 + 128 * r.value.0, r.value.1))
  }

  /** 128^k. */
  function Pow128(k: nat): (p: nat)
    ensures p > 0
  {
    if k == 0 then 1 else 128 * Pow128(k - 1)
  }

  lemma {:induction false} ReadVarintOf(k: nat, v: nat, rest: seq<byte>)
    requires k >= 1 && v < Pow128(k)
    ensures ReadVarint(k, Varint(v) + rest) == Some((v, rest))
  {
    var x := Varint(v) + rest;
    if v < 128 {
      assert x[1..] == rest;
    } else {
      assert x[1..] == Varint(v / 128) + rest && Pow128(1) == 128;
      ReadVarintOf(k - 1, v / 128, rest);
    }
  }

  lemma Pow128Values()
    ensures Pow128(5) == 0x8_0000_0000
    ensures Pow128(10) == 0x40_0000_0000_0000_0000
  {
    assert Pow128(5) == 0x8_0000_0000;
    assert Pow128(10) == 128 * 128 * 128 * 128 * 128 * Pow128(5);
  }

  function ReadVarint64(x: seq<byte>): (r: Option<(u64, seq<byte>)>)
    ensures r.Some? ==> |r.value.1| < |x|
  {
    var r := ReadVarint(10, x);
    if r.None? then None else Some((r.value.0 % 0x1_0000_0000_0000_0000, r.value.1))
  }

  function ReadVarint32(x: seq<byte>): (r: Option<(u32, seq<byte>)>)
    ensures r.Some? ==> |r.value.1| < |x|
  {
    var r := ReadVarint(10, x);
    if r.None? then None else Some((r.value.0 % 0x1_0000_0000, r.value.1))
  }

  lemma ReadVarint64Of(v: u64, rest: seq<byte>)
    ensures ReadVarint64(Varint(v) + rest) == Some((v, rest))
  {
    hide Varint;
    hide ReadVarint;
    Pow128Values();
    ReadVarintOf(10, v, rest);
  }

  lemma ReadVarint32Of(v: u32, rest: seq<byte>)
    ensures ReadVarint32(Varint(v) + rest) == Some((v, rest))
  {
    hide Varint;
    hide ReadVarint;
    Pow128Values();
    ReadVarintOf(10, v, rest);
  }

  /** A field tag: number * 8 + wire type. All tags here are below 128. */
  function ReadTag(x: seq<byte>): (r: Option<(nat, seq<byte>)>)
    ensures r.Some? ==> |r.value.1| < |x|
  {
    ReadVarint(5, x)
  }

  lemma ReadTagOf(tag: byte, rest: seq<byte>)
    requires tag < 128
    ensures ReadTag([tag] + rest) == Some((tag, rest))
  {
    assert ([tag] + rest)[1..] == rest;
  }

  /** A length and that many bytes. */
  function ReadBytes(x: seq<byte>): (r: Option<(seq<byte>, seq<byte>)>)
    ensures r.Some? ==> |r.value.1| < |x| && |r.value.0| < |x|
  {
    var n := ReadVarint(5, x);
    if n.None? || n.value.0 > MAX_SIZE || n.value.0 > |n.value.1| then None
    else Some((n.value.1[..n.value.0], n.value.1[n.value.0..]))
  }

  function Delimited(b: seq<byte>): seq<byte> {
    Varint(|b|) + b
  }

  lemma ReadBytesOf(b: seq<byte>, rest: seq<byte>)
    requires |b| <= MAX_SIZE
    ensures ReadBytes(Delimited(b) + rest) == Some((b, rest))
  {
    Pow128Values();
    ReadVarintOf(5, |b|, b + rest);
    assert Delimited(b) + rest == Varint(|b|) + (b + rest);
    assert (b + rest)[..|b|] == b && (b + rest)[|b|..] == rest;
  }

  /** n bytes, least significant first. */
  function Fixed(n: nat, v: nat): (b: seq<byte>)
    ensures |b| == n
  {
    Reverse(BytesOf(n, v))
  }

  function ReadFixed(n: nat, x: seq<byte>): (r: Option<(nat, seq<byte>)>)
    ensures r.Some? && n > 0 ==> |r.value.1| < |x|
    ensures r.Some? ==> r.value.0 < Pow256(n)
  {
    if |x| < n then None else
    LittleEndianIsReverse(x[..n]);
    NatOfBound(Reverse(x[..n]));
    Some((LittleEndian(x[..n]), x[n..]))
  }

  lemma ReadFixedOf(n: nat, v: nat, rest: seq<byte>)
    requires v < Pow256(n)
    ensures ReadFixed(n, Fixed(n, v) + rest) == Some((v, rest))
  {
    var x := Fixed(n, v) + rest;
    assert x[..n] == Fixed(n, v) && x[n..] == rest;
    LittleEndianIsReverse(x[..n]);
    assert Reverse(Reverse(BytesOf(n, v))) == BytesOf(n, v);
    NatOfBytesOfFits(n, v);
  }

  /** An enum value travels as its 64-bit two's complement. */
  function EnumBits(v: i32): u64 {
    if v < 0 then v + 0x1_0000_0000_0000_0000 else v
  }

  function EnumOf(v: u64): i32 {
    var w := v % 0x1_0000_0000;
    if w < 0x8000_0000 then w else w - 0x1_0000_0000
  }

  lemma EnumRoundTrip(v: i32)
    ensures EnumOf(EnumBits(v)) == v
  {
    if v < 0 {
      assert v + 0x1_0000_0000_0000_0000 == 0xffff_ffff * 0x1_0000_0000 + (v + 0x1_0000_0000);
    }
  }

  /** Size of a varint, as ByteSizeLong adds it up. */
  function VarintSize(v: nat): (n: nat)
    ensures n == |Varint(v)|
  {
    if v < 128 then 1 else 1 + VarintSize(v / 128)
  }
}
