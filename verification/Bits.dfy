// Packed bit strings, most significant bit of each byte first.
module Bits {
  type Bytes = seq<bv8>

  function Mask(k: nat): bv8 {
    match k
    case 0 => 0x80 case 1 => 0x40 case 2 => 0x20 case 3 => 0x10
    case 4 => 0x08 case 5 => 0x04 case 6 => 0x02 case _ => 0x01
  }

  function Tests(v: bv8, m: bv8): bool { v & m != 0 }

  function ByteBit(v: bv8, k: nat): bool { Tests(v, Mask(k)) }

  function ByteSet(v: bv8, k: nat, x: bool): bv8 { if x then v | Mask(k) else v & !Mask(k) }

  lemma ByteSetSame(v: bv8, k: nat, x: bool)
    requires k < 8
    ensures ByteBit(ByteSet(v, k, x), k) == x
  {}

  lemma ByteSetOther(v: bv8, k: nat, x: bool, m: nat)
    requires k < 8 && m < 8 && k != m
    ensures ByteBit(ByteSet(v, k, x), m) == ByteBit(v, m)
  {}

  predicate IsMask(m: bv8) {
    m == 0x80 || m == 0x40 || m == 0x20 || m == 0x10 || m == 0x08 || m == 0x04 || m == 0x02 || m == 0x01
  }

  lemma MaskIsMask(k: nat) ensures IsMask(Mask(k)) {}

  lemma TestsXor(v: bv8, w: bv8, m: bv8)
    requires IsMask(m)
    ensures Tests(v ^ w, m) == (Tests(v, m) != Tests(w, m))
  {}

  lemma ByteXor(v: bv8, w: bv8, k: nat)
    requires k < 8
    ensures ByteBit(XorByte(v, w), k) == (ByteBit(v, k) != ByteBit(w, k))
  {
    hide Mask, Tests, IsMask;
    MaskIsMask(k);
    TestsXor(v, w, Mask(k));
  }

  lemma ByteZero(k: nat) requires k < 8 ensures !ByteBit(0, k) {}

  lemma ByteExt(v: bv8, w: bv8)
    requires ByteBit(v, 0) == ByteBit(w, 0) && ByteBit(v, 1) == ByteBit(w, 1) && ByteBit(v, 2) == ByteBit(w, 2)
    requires ByteBit(v, 3) == ByteBit(w, 3) && ByteBit(v, 4) == ByteBit(w, 4) && ByteBit(v, 5) == ByteBit(w, 5)
    requires ByteBit(v, 6) == ByteBit(w, 6) && ByteBit(v, 7) == ByteBit(w, 7)
    ensures v == w
  {}

  function BytesForBits(n: nat): nat { (n + 7) / 8 }

  function GetBit(b: Bytes, i: nat): bool
    requires i < 8 * |b|
  {
    ByteBit(b[i / 8], i % 8)
  }

  function SetBit(b: Bytes, i: nat, x: bool): (r: Bytes)
    requires i < 8 * |b|
    ensures |r| == |b|
    ensures forall j :: 0 <= j < 8 * |b| ==> GetBit(r, j) == if j == i then x else GetBit(b, j)
  {
    var r := b[i / 8 := ByteSet(b[i / 8], i % 8, x)];
    assert forall j :: 0 <= j < 8 * |b| ==> GetBit(r, j) == if j == i then x else GetBit(b, j) by {
      SetBitBits(b, i, x, r);
    }
    r
  }

  lemma SetBitBits(b: Bytes, i: nat, x: bool, r: Bytes)
    requires i < 8 * |b| && r == b[i / 8 := ByteSet(b[i / 8], i % 8, x)]
    ensures forall j :: 0 <= j < 8 * |b| ==> GetBit(r, j) == if j == i then x else GetBit(b, j)
  {
    hide ByteBit, ByteSet;
    forall j | 0 <= j < 8 * |b| ensures GetBit(r, j) == if j == i then x else GetBit(b, j) {
      if j / 8 == i / 8 {
        if j % 8 == i % 8 {
          ByteSetSame(b[i / 8], i % 8, x);
        } else {
          ByteSetOther(b[i / 8], i % 8, x, j % 8);
        }
      }
    }
  }

  function ZeroBytes(n: nat): (r: Bytes)
    ensures |r| == n && forall j :: 0 <= j < 8 * n ==> !GetBit(r, j)
  {
    var r: Bytes := seq(n, i => 0);
    assert forall j :: 0 <= j < 8 * n ==> !GetBit(r, j) by {
      forall j | 0 <= j < 8 * n ensures !GetBit(r, j) { ByteZero(j % 8); }
    }
    r
  }

  function XorByte(v: bv8, w: bv8): bv8 { v ^ w }

  // Both operands have the same length, as every caller ensures.
  function XorBytes(a: Bytes, b: Bytes): (r: Bytes)
    requires |a| == |b|
    ensures |r| == |a|
    ensures forall j :: 0 <= j < 8 * |a| ==> GetBit(r, j) == (GetBit(a, j) != GetBit(b, j))
  {
    var r: Bytes := seq(|a|, i requires 0 <= i < |a| => XorByte(a[i], b[i]));
    assert forall j :: 0 <= j < 8 * |a| ==> GetBit(r, j) == (GetBit(a, j) != GetBit(b, j)) by {
      XorBytesBits(a, b, r);
    }
    r
  }

  lemma XorBytesBits(a: Bytes, b: Bytes, r: Bytes)
    requires |a| == |b| == |r|
    requires forall i :: 0 <= i < |r| ==> r[i] == XorByte(a[i], b[i])
    ensures forall j :: 0 <= j < 8 * |a| ==> GetBit(r, j) == (GetBit(a, j) != GetBit(b, j))
  {
    hide ByteBit;
    forall j | 0 <= j < 8 * |a| ensures GetBit(r, j) == (GetBit(a, j) != GetBit(b, j)) {
      ByteXor(a[j / 8], b[j / 8], j % 8);
    }
  }

  // A packed string is determined by its bits.
  lemma BitsDetermine(a: Bytes, b: Bytes)
    requires |a| == |b|
    requires forall j :: 0 <= j < 8 * |a| ==> GetBit(a, j) == GetBit(b, j)
    ensures a == b
  {
    hide ByteBit;
    forall i | 0 <= i < |a| ensures a[i] == b[i] {
      SameByte(a, b, i);
    }
  }

  lemma BitOfByte(a: Bytes, i: nat, k: nat)
    requires i < |a| && k < 8
    ensures GetBit(a, 8 * i + k) == ByteBit(a[i], k)
  {
    hide ByteBit;
    assert (8 * i + k) / 8 == i && (8 * i + k) % 8 == k;
  }

  lemma SameByte(a: Bytes, b: Bytes, i: nat)
    requires |a| == |b| && i < |a|
    requires forall j :: 0 <= j < 8 * |a| ==> GetBit(a, j) == GetBit(b, j)
    ensures a[i] == b[i]
  {
    hide ByteBit, GetBit;
    forall k | 0 <= k < 8 ensures ByteBit(a[i], k) == ByteBit(b[i], k) {
      BitOfByte(a, i, k); BitOfByte(b, i, k);
    }
    ByteExt(a[i], b[i]);
  }

  // The first n bits.
  function BitSeq(b: Bytes, n: nat): (s: seq<bool>)
    requires n <= 8 * |b|
    ensures |s| == n && forall i :: 0 <= i < n ==> s[i] == GetBit(b, i)
  {
    seq(n, i requires 0 <= i < n => GetBit(b, i))
  }

  // The shortest packed string holding these bits, padded with zeros.
  function Pack(s: seq<bool>): (b: Bytes)
    ensures |b| == BytesForBits(|s|)
    ensures forall i :: 0 <= i < 8 * |b| ==> GetBit(b, i) == (i < |s| && s[i])
  {
    PackPrefix(s, |s|)
  }

  function PackPrefix(s: seq<bool>, n: nat): (b: Bytes)
    requires n <= |s|
    ensures |b| == BytesForBits(|s|)
    ensures forall i :: 0 <= i < 8 * |b| ==> GetBit(b, i) == (i < n && s[i])
  {
    if n == 0 then ZeroBytes(BytesForBits(|s|)) else SetBit(PackPrefix(s, n - 1), n - 1, s[n - 1])
  }

  lemma PackBitSeq(s: seq<bool>)
    ensures BitSeq(Pack(s), |s|) == s
  {
    hide Pack, GetBit;
  }

  // The first n bits of s have been stored; the rest of the string is still clear.
  ghost predicate Filled(b: Bytes, s: seq<bool>, n: nat) {
    |b| == BytesForBits(|s|) && n <= |s| && forall i :: 0 <= i < 8 * |b| ==> GetBit(b, i) == (i < n && s[i])
  }

  lemma FillStart(s: seq<bool>)
    ensures Filled(ZeroBytes(BytesForBits(|s|)), s, 0)
  {
    hide GetBit;
  }

  lemma FillNext(b: Bytes, s: seq<bool>, n: nat)
    requires n < |s| && Filled(b, s, n)
    ensures n < 8 * |b| && Filled(SetBit(b, n, s[n]), s, n + 1)
  {
    hide GetBit, SetBit;
  }

  lemma FillDone(b: Bytes, s: seq<bool>)
    requires Filled(b, s, |s|)
    ensures b == Pack(s)
  {
    hide Pack, GetBit;
    BitsDetermine(b, Pack(s));
  }
}
