/** Bounded integers, big-endian byte strings and their loops
    (bitstring.h and takeUint.h of the control plane). */
module Bits {
  type u1 = i: int | 0 <= i < 2
  type u2 = i: int | 0 <= i < 4
  type u4 = i: int | 0 <= i < 16
  type u5 = i: int | 0 <= i < 32
  type u6 = i: int | 0 <= i < 64
  type byte = i: int | 0 <= i < 256
  type u9 = i: int | 0 <= i < 512
  type u12 = i: int | 0 <= i < 4096
  type u16 = i: int | 0 <= i < 0x1_0000
  type u20 = i: int | 0 <= i < 0x10_0000
  type u32 = i: int | 0 <= i < 0x1_0000_0000
  type u48 = i: int | 0 <= i < 0x1_0000_0000_0000
  type u64 = i: int | 0 <= i < 0x1_0000_0000_0000_0000

  datatype Option<+T> = None | Some(value: T)

  /** Bit k of a bitmap: the test `bitmap & (1 << k)`. */
  predicate Bit(bitmap: nat, k: nat) {
    if k == 0 then bitmap % 2 == 1 else Bit(bitmap / 2, k - 1)
  }

  /** 256^n, the number of values n bytes can hold. */
  function Pow256(n: nat): (p: nat)
    ensures p > 0
  {
    if n == 0 then 1 else 256 * Pow256(n - 1)
  }

  lemma Pow256Values()
    ensures Pow256(1) == 0x100
    ensures Pow256(2) == 0x1_0000
    ensures Pow256(3) == 0x100_0000
    ensures Pow256(4) == 0x1_0000_0000
    ensures Pow256(6) == 0x1_0000_0000_0000
    ensures Pow256(8) == 0x1_0000_0000_0000_0000
  {
  }

  /** The number a big-endian byte string stands for. */
  function NatOf(b: seq<byte>): nat {
    if |b| == 0 then 0 else NatOf(b[..|b| - 1]) * 256 + b[|b| - 1]
  }

  /** The low n bytes of v, most significant first. */
  function BytesOf(n: nat, v: nat): (b: seq<byte>)
    ensures |b| == n
  {
    if n == 0 then [] else BytesOf(n - 1, v / 256) + [v % 256]
  }

  lemma ModByte(v: nat, m: nat)
    requires m > 0
    ensures v / 256 % m * 256 + v % 256 == v % (256 * m)
  {
    var q, r := v / 256 / m, v / 256 % m;
    assert v / 256 == q * m + r;
    assert v == 256 * (q * m + r) + v % 256;
    assert v == q * (256 * m) + (256 * r + v % 256);
    assert 0 <= 256 * r + v % 256 < 256 * m;
    DivModUnique(q, 256 * m, 256 * r + v % 256);
  }

  lemma DivModUnique(q: nat, m: nat, r: nat)
    requires r < m
    ensures (q * m + r) / m == q && (q * m + r) % m == r
  {
    var n := q * m + r;
    QuotientUnique(q, r, n / m, n % m, m);
  }

  lemma QuotientUnique(q1: int, r1: int, q2: int, r2: int, m: nat)
    requires q1 * m + r1 == q2 * m + r2
    requires 0 <= r1 < m && 0 <= r2 < m
    ensures q1 == q2 && r1 == r2
  {
    var d := q1 - q2;
    assert d * m == r2 - r1;
    if d >= 1 {
      MulAtLeast(d, m);
    } else if d <= -1 {
      MulAtLeast(-d, m);
    }
  }

  lemma MulAtLeast(d: int, m: nat)
    requires d >= 1
    ensures d * m >= m
  {
  }

  lemma {:induction false} NatOfBytesOf(n: nat, v: nat)
    ensures NatOf(BytesOf(n, v)) == v % Pow256(n)
  {
    if n > 0 {
      NatOfBytesOf(n - 1, v / 256);
      assert BytesOf(n, v)[..n - 1] == BytesOf(n - 1, v / 256);
      ModByte(v, Pow256(n - 1));
    }
  }

  /** Values that fit survive the trip through n bytes. */
  lemma NatOfBytesOfFits(n: nat, v: nat)
    requires v < Pow256(n)
    ensures NatOf(BytesOf(n, v)) == v
  {
    NatOfBytesOf(n, v);
    DivModUnique(0, Pow256(n), v);
  }

  lemma {:induction false} BytesOfNatOf(b: seq<byte>)
    ensures BytesOf(|b|, NatOf(b)) == b
  {
    if |b| > 0 {
      BytesOfNatOf(b[..|b| - 1]);
      assert NatOf(b) / 256 == NatOf(b[..|b| - 1]) && NatOf(b) % 256 == b[|b| - 1];
    }
  }

  lemma {:induction false} NatOfBound(b: seq<byte>)
    ensures NatOf(b) < Pow256(|b|)
  {
    if |b| > 0 {
      NatOfBound(b[..|b| - 1]);
    }
  }

  lemma {:induction false} NatOfConcat(a: seq<byte>, b: seq<byte>)
    ensures NatOf(a + b) == NatOf(a) * Pow256(|b|) + NatOf(b)
  {
    if |b| == 0 {
      assert a + b == a;
    } else {
      var b' := b[..|b| - 1];
      NatOfConcat(a, b');
      assert (a + b)[..|a + b| - 1] == a + b';
      assert NatOf(a) * Pow256(|b'|) * 256 == NatOf(a) * Pow256(|b|);
    }
  }

  /** Encoding to n bytes reverses decoding: the string is cut to its last n bytes
      or padded in front with zero bytes. */
  function Resize(n: nat, b: seq<byte>): (r: seq<byte>)
    ensures |r| == n
  {
    if |b| >= n then b[|b| - n..] else seq(n - |b|, i => 0) + b
  }

  lemma {:induction false} LeadingZeros(k: nat, b: seq<byte>)
    ensures NatOf(seq(k, i => 0) + b) == NatOf(b)
  {
    if k == 0 {
      assert seq(k, i => 0) + b == b;
    } else {
      LeadingZeros(k - 1, [0] + b);
      assert seq(k, i => 0) + b == seq(k - 1, i => 0) + ([0] + b);
      NatOfConcat([0], b);
    }
  }

  lemma ReencodeResizes(n: nat, b: seq<byte>)
    ensures BytesOf(n, NatOf(b)) == Resize(n, b)
  {
    hide NatOf;
    hide BytesOf;
    hide Pow256;
    if |b| >= n {
      var hi, lo := b[..|b| - n], b[|b| - n..];
      assert b == hi + lo;
      NatOfConcat(hi, lo);
      NatOfBound(lo);
      DivModUnique(NatOf(hi), Pow256(n), NatOf(lo));
      BytesOfMod(n, NatOf(b));
      BytesOfNatOf(lo);
    } else {
      var r := Resize(n, b);
      LeadingZeros(n - |b|, b);
      BytesOfNatOf(r);
    }
  }

  lemma BytesOfMod(n: nat, v: nat)
    ensures BytesOf(n, v) == BytesOf(n, v % Pow256(n))
  {
    NatOfBytesOf(n, v);
    BytesOfNatOf(BytesOf(n, v));
  }

  /** Reading back to front, at most `bytes` bytes (bitstring.h, fromBitstring). */
  method FromBitstring(bytes: nat, bitstring: seq<byte>) returns (value: nat)
    ensures value == NatOf(bitstring) % Pow256(bytes)
    ensures value == NatOf(Resize(bytes, bitstring))
  {
    value := 0;
    var i := 0;
    while i < |bitstring| && i < bytes
      invariant 0 <= i <= |bitstring| && i <= bytes
      invariant value == NatOf(bitstring[|bitstring| - i..])
    {
      ghost var low := bitstring[|bitstring| - i..];
      var c := bitstring[|bitstring| - 1 - i];
      value := value + c * Pow256(i);
      assert bitstring[|bitstring| - 1 - i..] == [c] + low;
      NatOfConcat([c], low);
      i := i + 1;
    }
    ReencodeResizes(bytes, bitstring);
    NatOfBytesOf(bytes, NatOf(bitstring));
    if |bitstring| < bytes {
      assert bitstring[|bitstring| - i..] == bitstring;
      LeadingZeros(bytes - |bitstring|, bitstring);
    }
  }

  /** One byte per step, most significant first (bitstring.h, toBitstring). */
  method ToBitstring(bytes: nat, value: nat) returns (bitstring: seq<byte>)
    ensures bitstring == BytesOf(bytes, value)
  {
    bitstring := seq(bytes, i => 0);
    var i := 0;
    while i < bytes
      invariant 0 <= i <= bytes && |bitstring| == bytes
      invariant bitstring[..i] == BytesOf(i, Shift(value, bytes - i))
    {
      ghost var done := bitstring[..i];
      var c: byte := Shift(value, bytes - i - 1) % 256;
      bitstring := bitstring[i := c];
      assert bitstring[..i + 1] == done + [c];
      i := i + 1;
    }
    assert bitstring[..bytes] == bitstring;
  }

  /** The C++ shift `v >> (8 * k)`. */
  function Shift(v: nat, k: nat): nat {
    if k == 0 then v else Shift(v, k - 1) / 256
  }

  /** The n-byte big-endian number at offset pos; the specification of takeUint. */
  function Take(n: nat, payload: seq<byte>, pos: nat): nat
    requires pos + n <= |payload|
  {
    NatOf(payload[pos..pos + n])
  }

  /** takeUint64/32/16/8 copy the bytes in reverse into a native little-endian integer,
      so the integer is read back from its bytes least significant first. */
  method TakeUint(n: nat, payload: seq<byte>, pos: nat) returns (number: nat)
    requires pos + n <= |payload|
    ensures number == Take(n, payload, pos)
    ensures number < Pow256(n)
  {
    var native := new byte[n];
    var i := 0;
    while i < n
      invariant 0 <= i <= n
      invariant forall j :: 0 <= j < i ==> native[j] == payload[pos + n - 1 - j]
    {
      native[i] := payload[pos + n - 1 - i];
      i := i + 1;
    }
    assert Reverse(native[..]) == payload[pos..pos + n];
    NatOfBound(payload[pos..pos + n]);
    LittleEndianIsReverse(native[..]);
    number := LittleEndian(native[..]);
  }

  /** The value of a native little-endian integer, byte 0 least significant. */
  function LittleEndian(b: seq<byte>): nat {
    if |b| == 0 then 0 else b[0] + 256 * LittleEndian(b[1..])
  }

  function Reverse(b: seq<byte>): (r: seq<byte>) {
    seq(|b|, i requires 0 <= i < |b| => b[|b| - 1 - i])
  }

  lemma {:induction false} LittleEndianIsReverse(b: seq<byte>)
    ensures LittleEndian(b) == NatOf(Reverse(b))
  {
    if |b| > 0 {
      LittleEndianIsReverse(b[1..]);
      assert Reverse(b)[..|b| - 1] == Reverse(b[1..]);
    }
  }
}
