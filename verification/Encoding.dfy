// Big-endian 16-bit numbers and length-prefixed fields.
module Encoding {
  import opened Wrappers
  import opened Bits

  function ByteOf(n: nat): bv8
    requires n < 256
  {
    n as bv8
  }

  function NatOf(b: bv8): (n: nat)
    ensures n < 256
  {
    b as int
  }

  lemma ByteOfNatOf(b: bv8) ensures ByteOf(NatOf(b)) == b {}

  function Successor(b: bv8): bv8 { b + 1 }

  lemma NatOfSuccessor(b: bv8)
    requires NatOf(b) < 255
    ensures NatOf(Successor(b)) == NatOf(b) + 1
  {}

  function CountTo(n: nat): bv8 { if n == 0 then 0 else Successor(CountTo(n - 1)) }

  lemma {:induction false} NatOfCountTo(n: nat)
    requires n < 256
    ensures NatOf(CountTo(n)) == n
  {
    hide Successor;
    if n > 0 {
      NatOfCountTo(n - 1);
      NatOfSuccessor(CountTo(n - 1));
    }
  }

  lemma NatOfByteOf(n: nat)
    requires n < 256
    ensures NatOf(ByteOf(n)) == n
  {
    hide *;
    NatOfCountTo(n);
    ByteOfNatOf(CountTo(n));
  }

  // ---------- bits as binary digits ----------

  function Digit(x: bool): (d: nat) ensures d < 2 { if x then 1 else 0 }

  // A byte is the sum of the place values of its set bits, the first bit counting 128.
  lemma ByteIsSum(v: bv8)
    ensures NatOf(v) == 128 * Digit(ByteBit(v, 0)) + 64 * Digit(ByteBit(v, 1)) + 32 * Digit(ByteBit(v, 2))
                      + 16 * Digit(ByteBit(v, 3)) + 8 * Digit(ByteBit(v, 4)) + 4 * Digit(ByteBit(v, 5))
                      + 2 * Digit(ByteBit(v, 6)) + Digit(ByteBit(v, 7))
  {}

  lemma PlaceValues()
    ensures TwoTo(0) == 1 && TwoTo(1) == 2 && TwoTo(2) == 4 && TwoTo(3) == 8
    ensures TwoTo(4) == 16 && TwoTo(5) == 32 && TwoTo(6) == 64 && TwoTo(7) == 128
  {}

  lemma DivModUnique(i: nat, d: nat, r: nat)
    requires r < d
    ensures (i * d + r) / d == i && (i * d + r) % d == r
  {
    var x := i * d + r;
    var q := x / d;
    if q < i { MulMonotone(q + 1, i, d); }
    if q > i { MulMonotone(i + 1, q, d); }
  }

  lemma MulMonotone(a: nat, b: nat, d: nat)
    requires a <= b
    ensures a * d <= b * d
  {}

  lemma DigitFrom(w: nat, high: nat, d: nat, low: nat)
    requires d < 2 && low < w
    ensures (((2 * high + d) * w + low) / w) % 2 == d
  {
    DivModUnique(2 * high + d, w, low);
  }

  lemma DigitsOfSum(n: nat, d0: nat, d1: nat, d2: nat, d3: nat, d4: nat, d5: nat, d6: nat, d7: nat)
    requires d0 < 2 && d1 < 2 && d2 < 2 && d3 < 2 && d4 < 2 && d5 < 2 && d6 < 2 && d7 < 2
    requires n == 128 * d0 + 64 * d1 + 32 * d2 + 16 * d3 + 8 * d4 + 4 * d5 + 2 * d6 + d7
    ensures (n / 128) % 2 == d0
    ensures (n / 64) % 2 == d1
    ensures (n / 32) % 2 == d2
    ensures (n / 16) % 2 == d3
    ensures (n / 8) % 2 == d4
    ensures (n / 4) % 2 == d5
    ensures (n / 2) % 2 == d6
    ensures (n / 1) % 2 == d7
  {
    DigitFrom(128, 0, d0, 64 * d1 + 32 * d2 + 16 * d3 + 8 * d4 + 4 * d5 + 2 * d6 + d7);
    DigitFrom(64, d0, d1, 32 * d2 + 16 * d3 + 8 * d4 + 4 * d5 + 2 * d6 + d7);
    DigitFrom(32, 2 * d0 + d1, d2, 16 * d3 + 8 * d4 + 4 * d5 + 2 * d6 + d7);
    DigitFrom(16, 4 * d0 + 2 * d1 + d2, d3, 8 * d4 + 4 * d5 + 2 * d6 + d7);
    DigitFrom(8, 8 * d0 + 4 * d1 + 2 * d2 + d3, d4, 4 * d5 + 2 * d6 + d7);
    DigitFrom(4, 16 * d0 + 8 * d1 + 4 * d2 + 2 * d3 + d4, d5, 2 * d6 + d7);
    DigitFrom(2, 32 * d0 + 16 * d1 + 8 * d2 + 4 * d3 + 2 * d4 + d5, d6, d7);
    DigitFrom(1, 64 * d0 + 32 * d1 + 16 * d2 + 8 * d3 + 4 * d4 + 2 * d5 + d6, d7, 0);
  }

  lemma DigitOfByte(v: bv8, k: nat)
    requires k < 8
    ensures ByteBit(v, k) <==> (NatOf(v) / TwoTo(7 - k)) % 2 == 1
  {
    hide ByteBit, NatOf, TwoTo;
    ByteIsSum(v);
    PlaceValues();
    DigitsOfSum(NatOf(v), Digit(ByteBit(v, 0)), Digit(ByteBit(v, 1)), Digit(ByteBit(v, 2)), Digit(ByteBit(v, 3)),
                Digit(ByteBit(v, 4)), Digit(ByteBit(v, 5)), Digit(ByteBit(v, 6)), Digit(ByteBit(v, 7)));
    match k {
      case 0 => case 1 => case 2 => case 3 => case 4 => case 5 => case 6 => case 7 =>
    }
  }

  // Bit i of a packed string is a binary digit of its byte, most significant digit first.
  lemma BitIsDigit(b: Bytes, i: nat)
    requires i < 8 * |b|
    ensures GetBit(b, i) <==> (NatOf(b[i / 8]) / TwoTo(7 - i % 8)) % 2 == 1
  {
    hide ByteBit, NatOf, TwoTo;
    DigitOfByte(b[i / 8], i % 8);
  }

  // The conversion to sixteen bits wraps around.
  function U16be(v: int): (r: Bytes)
    ensures |r| == 2
  {
    var w := v % 65536;
    [ByteOf(w / 256), ByteOf(w % 256)]
  }

  // Reading past the end throws.
  function ReadU16be(b: Bytes, at: nat): (r: Option<nat>)
    ensures r.Some? ==> at + 2 <= |b| && r.value < 65536
  {
    if at + 2 <= |b| then Some(256 * NatOf(b[at]) + NatOf(b[at + 1])) else None
  }

  lemma ReadWritten(before: Bytes, v: nat, after: Bytes)
    requires v < 65536
    ensures ReadU16be(before + U16be(v) + after, |before|) == Some(v)
  {
    hide ByteOf, NatOf;
    var b := before + U16be(v) + after;
    assert b[|before|] == U16be(v)[0] && b[|before| + 1] == U16be(v)[1];
    NatOfByteOf(v / 256);
    NatOfByteOf(v % 256);
  }

  // For fields of fewer than 65536 bytes.
  function LengthPrefixed(b: Bytes): Bytes { U16be(|b|) + b }

  // A length-prefixed field followed by anything is read in only one way.
  lemma LengthPrefixedUnique(a: Bytes, x: Bytes, b: Bytes, y: Bytes)
    requires |a| < 65536 && |b| < 65536
    requires LengthPrefixed(a) + x == LengthPrefixed(b) + y
    ensures a == b && x == y
  {
    hide U16be;
    ReadWritten([], |a|, a + x);
    ReadWritten([], |b|, b + y);
    assert LengthPrefixed(a) + x == [] + U16be(|a|) + (a + x);
    assert LengthPrefixed(b) + y == [] + U16be(|b|) + (b + y);
    var z := LengthPrefixed(a) + x;
    assert z[2..2 + |a|] == a && z[2 + |a|..] == x;
    assert z[2..2 + |b|] == b && z[2 + |b|..] == y;
  }
}
