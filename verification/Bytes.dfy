/** Octets and the big-endian integers every wire format here is built from. */
module Bytes {

  type byte = x: int | 0 <= x < 256

  type Bytes = seq<byte>

  const U32_SPAN: nat := 0x1_0000_0000
  const U64_SPAN: nat := 0x1_0000_0000_0000_0000

  /** `256` to the power `width`. */
  function Span(width: nat): (s: nat)
    ensures s > 0
  {
    if width == 0 then 1 else 256 * Span(width - 1)
  }

  /** `n` cast to `width` octets, most significant first. */
  function BigEndian(n: nat, width: nat): (b: Bytes)
    ensures |b| == width
  {
    if width == 0 then [] else BigEndian(n / 256, width - 1) + [n % 256]
  }

  function FromBigEndian(b: Bytes): (n: nat)
    ensures n < Span(|b|)
  {
    if b == [] then 0 else 256 * FromBigEndian(b[..|b| - 1]) + b[|b| - 1]
  }

  function BeU32(n: nat): (b: Bytes)
    ensures |b| == 4
  {
    BigEndian(n, 4)
  }

  function BeU64(n: nat): (b: Bytes)
    ensures |b| == 8
  {
    BigEndian(n, 8)
  }

  function ReadU32(b: Bytes, at: nat): (n: nat)
    requires at + 4 <= |b|
    ensures n < U32_SPAN
  {
    Spans();
    FromBigEndian(b[at..at + 4])
  }

  function ReadU64(b: Bytes, at: nat): (n: nat)
    requires at + 8 <= |b|
    ensures n < U64_SPAN
  {
    Spans();
    FromBigEndian(b[at..at + 8])
  }

  lemma Spans()
    ensures Span(4) == U32_SPAN && Span(8) == U64_SPAN
  {
    assert Span(3) == 0x100_0000 by {
      assert Span(2) == 0x1_0000 by { assert Span(1) == 256; }
    }
    assert Span(7) == 0x100_0000_0000_0000 by {
      assert Span(6) == 0x1_0000_0000_0000 by { assert Span(5) == 0x100_0000_0000; }
    }
  }

  lemma SplitModulus(n: nat, p: nat)
    requires p > 0
    ensures n % (256 * p) == 256 * (n / 256 % p) + n % 256
  {
    var high, low := n / 256, n % 256;
    var q, r := high / p, high % p;
    assert n == 256 * (p * q + r) + low == (256 * p) * q + (256 * r + low);
    assert 256 * r + low < 256 * p;
    UniqueRemainder(n, 256 * p, q, 256 * r + low);
  }

  lemma UniqueRemainder(n: nat, d: nat, q: int, r: nat)
    requires d > 0 && n == d * q + r && r < d
    ensures n % d == r
  {
    var gap: int := n / d - q;
    assert d * gap == r - n % d;
    assert gap >= 1 ==> d * gap >= d;
    assert gap <= -1 ==> d * gap + d <= 0;
  }

  /** Reading an encoded number gives it back modulo the width of its field. */
  lemma {:induction false} BigEndianReads(n: nat, width: nat)
    ensures FromBigEndian(BigEndian(n, width)) == n % Span(width)
  {
    if width > 0 {
      BigEndianReads(n / 256, width - 1);
      SplitModulus(n, Span(width - 1));
      assert BigEndian(n, width)[..width - 1] == BigEndian(n / 256, width - 1);
    }
  }

  /** Octets are the encoding of the number they read as. */
  lemma {:induction false} BigEndianUnreads(b: Bytes)
    ensures BigEndian(FromBigEndian(b), |b|) == b
  {
    if b != [] {
      var front := b[..|b| - 1];
      BigEndianUnreads(front);
      var low: nat := b[|b| - 1];
      assert FromBigEndian(b) == 256 * FromBigEndian(front) + low;
      assert FromBigEndian(b) / 256 == FromBigEndian(front) && FromBigEndian(b) % 256 == low;
      assert b == front + [b[|b| - 1]];
    }
  }

  /** A 32-bit field reads back as the value modulo the field's span, wherever it sits. */
  lemma U32Field(whole: Bytes, at: nat, n: nat)
    requires at + 4 <= |whole| && whole[at..at + 4] == BeU32(n)
    ensures ReadU32(whole, at) == n % U32_SPAN
  {
    Spans();
    BigEndianReads(n, 4);
  }

  lemma U64Field(whole: Bytes, at: nat, n: nat)
    requires at + 8 <= |whole| && whole[at..at + 8] == BeU64(n)
    ensures ReadU64(whole, at) == n % U64_SPAN
  {
    Spans();
    BigEndianReads(n, 8);
  }

  lemma U32Unread(b: Bytes, at: nat)
    requires at + 4 <= |b|
    ensures BeU32(ReadU32(b, at)) == b[at..at + 4]
  {
    BigEndianUnreads(b[at..at + 4]);
  }

  lemma U64Unread(b: Bytes, at: nat)
    requires at + 8 <= |b|
    ensures BeU64(ReadU64(b, at)) == b[at..at + 8]
  {
    BigEndianUnreads(b[at..at + 8]);
  }

  /** Two numbers that fit a field and look alike on the wire are equal. */
  lemma BigEndianInjective(m: nat, n: nat, width: nat)
    requires m < Span(width) && n < Span(width) && BigEndian(m, width) == BigEndian(n, width)
    ensures m == n
  {
    BigEndianReads(m, width);
    BigEndianReads(n, width);
  }
}
