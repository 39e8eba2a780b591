/**
 Bytes, 32-bit integers, and the two ways the program lays an integer out:
 big-endian on the wire (Appendix B of RFC 791) and little-endian in memory.
 */
module Words {

  type byte = b: int | 0 <= b < 0x100

  const TWO31: int := 0x8000_0000
  const TWO32: int := 0x1_0000_0000

  /** A value of C's `int`. */
  type int32 = x: int | -0x8000_0000 <= x < 0x8000_0000

  predicate FitsInt(x: int) {
    -TWO31 <= x < TWO31
  }

  predicate FitsLong(x: int) {
    -TWO31 * TWO32 <= x < TWO31 * TWO32
  }

  /** The C conversion of an `int` to `unsigned int`; also the low 32 bits of a wider integer. */
  function Unsigned(x: int): (u: int)
    ensures 0 <= u < TWO32
  {
    x % TWO32
  }

  /** The C conversion of an `unsigned int` (or of any wider integer) back to `int`. */
  function Signed(x: int): (i: int)
    ensures FitsInt(i)
  {
    var u := x % TWO32;
    if u < TWO31 then u else u - TWO32
  }

  lemma SignedOfUnsigned(x: int)
    ensures Signed(Unsigned(x)) == Signed(x)
    ensures FitsInt(x) ==> Signed(x) == x
  {
  }

  /** `htonl`: the four bytes of an integer, most significant first. */
  function IntBytes(x: int): (b: seq<byte>)
    ensures |b| == 4
  {
    var u := Unsigned(x);
    [u / 0x100 / 0x100 / 0x100, u / 0x100 / 0x100 % 0x100, u / 0x100 % 0x100, u % 0x100]
  }

  /** The number written by four digits to base 256. */
  function Digits256(a: int, b: int, c: int, d: int): int {
    ((a * 0x100 + b) * 0x100 + c) * 0x100 + d
  }

  /** `ntohl`, read back into an `int`. */
  function BytesInt(b: seq<byte>): (x: int)
    requires |b| == 4
    ensures FitsInt(x)
  {
    Signed(Digits256(b[0], b[1], b[2], b[3]))
  }

  lemma BytesIntOfIntBytes(x: int)
    ensures BytesInt(IntBytes(x)) == Signed(x)
  {
    var b := IntBytes(x);
    assert Digits256(b[0], b[1], b[2], b[3]) == Unsigned(x);
  }

  /** Network byte order: the first byte is the most significant one (Appendix B of RFC 791). */
  lemma NetworkOrder(x: int)
    requires FitsInt(x)
    ensures var b := IntBytes(x);
      b[0] as int * 0x100_0000 + b[1] as int * 0x1_0000 + b[2] as int * 0x100 + b[3] as int
      == if x >= 0 then x else x + 0x1_0000_0000
  {
    var b := IntBytes(x);
    assert Digits256(b[0], b[1], b[2], b[3]) == Unsigned(x);
  }

  lemma DropDigit(m: int, d: int)
    requires 0 <= d < 0x100
    ensures (m * 0x100 + d) / 0x100 == m && (m * 0x100 + d) % 0x100 == d
  {
  }

  lemma UnsignedOfSigned(u: int)
    requires 0 <= u < TWO32
    ensures Unsigned(Signed(u)) == u
  {
  }

  lemma IntBytesOfBytesInt(b: seq<byte>)
    requires |b| == 4
    ensures IntBytes(BytesInt(b)) == b
  {
    hide Signed, Unsigned;
    UnsignedOfSigned(Digits256(b[0], b[1], b[2], b[3]));
    DropDigit(Digits256(0, b[0], b[1], b[2]), b[3]);
    DropDigit(Digits256(0, 0, b[0], b[1]), b[2]);
    DropDigit(Digits256(0, 0, 0, b[0]), b[1]);
  }

  lemma UnsignedKeepsBytes(x: int)
    ensures IntBytes(Unsigned(x)) == IntBytes(x)
  {
    assert Unsigned(Unsigned(x)) == Unsigned(x);
    hide Unsigned;
  }

  /** The little-endian image of a four-byte integer in memory. */
  function Little(x: int): (b: seq<byte>)
    ensures |b| == 4
  {
    var w := IntBytes(x);
    [w[3], w[2], w[1], w[0]]
  }

  function OfLittle(b: seq<byte>): (x: int)
    requires |b| == 4
    ensures FitsInt(x)
  {
    BytesInt([b[3], b[2], b[1], b[0]])
  }

  lemma OfLittleOfLittle(x: int)
    ensures OfLittle(Little(x)) == Signed(x)
  {
    var b := Little(x);
    assert [b[3], b[2], b[1], b[0]] == IntBytes(x);
    BytesIntOfIntBytes(x);
  }

  lemma MulMonotone(a: int, b: int, c: nat)
    requires a <= b
    ensures a * c <= b * c && c * a <= c * b
  {
  }

  function Zeros(n: nat): (s: seq<byte>)
    ensures |s| == n
    ensures forall i :: 0 <= i < n ==> s[i] == 0
  {
    seq(n, _ => 0)
  }

  /** `s` with the bytes from position `at` on replaced by `b`. */
  function Overwrite(s: seq<byte>, at: nat, b: seq<byte>): (r: seq<byte>)
    requires at + |b| <= |s|
    ensures |r| == |s|
  {
    s[..at] + b + s[at + |b|..]
  }

  lemma OverwriteTwice(s: seq<byte>, at: nat, a: seq<byte>, b: seq<byte>)
    requires at + |a| + |b| <= |s|
    ensures Overwrite(Overwrite(s, at, a), at + |a|, b) == Overwrite(s, at, a + b)
  {
  }
}
