// Big-endian conversion between 64-bit words and bytes, and the rate part of the state as sixteen bytes.
module AsconWords {
  import opened Bits
  import opened AsconPermutation

  function PushBits(v: bv64, b: bv8): bv64 { (v << 8) | (b as bv64) }

  function Shr8Bits(v: bv64): bv64 { v >> 8 }

  function LowByteBits(v: bv64): bv8 { (v & 0xFF) as bv8 }

  function Push(w: Word, b: bv8): Word { Word(PushBits(w.v, b)) }

  function Shr8(w: Word): Word { Word(Shr8Bits(w.v)) }

  function LowByte(w: Word): bv8 { LowByteBits(w.v) }

  // The word read most significant byte first; a longer string would overflow.
  function Load(b: Bytes): Word { if |b| == 0 then Word(0) else Push(Load(b[..|b| - 1]), b[|b| - 1]) }

  // The n least significant bytes of a word, most significant first.
  function StoreLow(w: Word, n: nat): (b: Bytes)
    ensures |b| == n
    decreases n
  {
    if n == 0 then [] else StoreLow(Shr8(w), n - 1) + [LowByte(w)]
  }

  function Store(w: Word): (b: Bytes)
    ensures |b| == 8
  {
    StoreLow(w, 8)
  }

  // ---------- loading undoes storing ----------

  lemma RawSplit(v: bv64) ensures PushBits(Shr8Bits(v), LowByteBits(v)) == v {}

  // The word fits in n bytes.
  function Fits(w: Word, n: nat): bool
    decreases n
  {
    if n == 0 then w == Word(0) else Fits(Shr8(w), n - 1)
  }

  function Shifted(w: Word, n: nat): Word { if n == 0 then w else Shr8(Shifted(w, n - 1)) }

  lemma {:induction false} FitsIfShiftedOut(w: Word, m: nat, n: nat)
    requires Shifted(w, m + n) == Word(0)
    ensures Fits(Shifted(w, m), n)
    decreases n
  {
    hide Shr8;
    if n > 0 { FitsIfShiftedOut(w, m + 1, n - 1); }
  }

  lemma RawShiftedOut(v: bv64)
    ensures Shr8Bits(Shr8Bits(Shr8Bits(Shr8Bits(Shr8Bits(Shr8Bits(Shr8Bits(Shr8Bits(v)))))))) == 0
  {}

  lemma FitsInEight(w: Word)
    ensures Fits(w, 8)
  {
    hide Shr8Bits, Fits;
    RawShiftedOut(w.v);
    ShiftedEight(w);
    FitsIfShiftedOut(w, 0, 8);
    assert Shifted(w, 0) == w;
  }

  lemma ShiftedEight(w: Word)
    ensures Shifted(w, 8) == Shr8(Shr8(Shr8(Shr8(Shr8(Shr8(Shr8(Shr8(w))))))))
  {
    hide Shr8;
    assert Shifted(w, 0) == w;
    assert Shifted(w, 1) == Shr8(w);
    assert Shifted(w, 2) == Shr8(Shr8(w));
    assert Shifted(w, 4) == Shr8(Shr8(Shr8(Shr8(w))));
    assert Shifted(w, 6) == Shr8(Shr8(Shr8(Shr8(Shr8(Shr8(w))))));
  }

  lemma {:induction false} LoadStoreLow(w: Word, n: nat)
    requires Fits(w, n)
    ensures Load(StoreLow(w, n)) == w
    decreases n
  {
    hide Shr8Bits, LowByteBits, PushBits;
    if n > 0 {
      LoadStoreLow(Shr8(w), n - 1);
      RawSplit(w.v);
      var b := StoreLow(w, n);
      assert b[..|b| - 1] == StoreLow(Shr8(w), n - 1);
    }
  }

  lemma LoadStore(w: Word)
    ensures Load(Store(w)) == w
  {
    hide Fits, Load, StoreLow;
    FitsInEight(w);
    LoadStoreLow(w, 8);
  }

  // ---------- storing undoes loading ----------

  // n more bytes can be pushed without losing a bit.
  function RoomBits(v: bv64, n: nat): bool {
    match n
    case 0 => true
    case 1 => v & 0xFF00_0000_0000_0000 == 0
    case 2 => v & 0xFFFF_0000_0000_0000 == 0
    case 3 => v & 0xFFFF_FF00_0000_0000 == 0
    case 4 => v & 0xFFFF_FFFF_0000_0000 == 0
    case 5 => v & 0xFFFF_FFFF_FF00_0000 == 0
    case 6 => v & 0xFFFF_FFFF_FFFF_0000 == 0
    case 7 => v & 0xFFFF_FFFF_FFFF_FF00 == 0
    case _ => v == 0
  }

  lemma RawPush(v: bv64, b: bv8)
    requires RoomBits(v, 1)
    ensures Shr8Bits(PushBits(v, b)) == v
    ensures LowByteBits(PushBits(v, b)) == b
  {}

  lemma RawRoom1(v: bv64, b: bv8)
    requires RoomBits(v, 2)
    ensures RoomBits(PushBits(v, b), 1) && RoomBits(v, 1)
  {}

  lemma RawRoom2(v: bv64, b: bv8)
    requires RoomBits(v, 3)
    ensures RoomBits(PushBits(v, b), 2) && RoomBits(v, 1)
  {}

  lemma RawRoom3(v: bv64, b: bv8)
    requires RoomBits(v, 4)
    ensures RoomBits(PushBits(v, b), 3) && RoomBits(v, 1)
  {}

  lemma RawRoom4(v: bv64, b: bv8)
    requires RoomBits(v, 5)
    ensures RoomBits(PushBits(v, b), 4) && RoomBits(v, 1)
  {}

  lemma RawRoom5(v: bv64, b: bv8)
    requires RoomBits(v, 6)
    ensures RoomBits(PushBits(v, b), 5) && RoomBits(v, 1)
  {}

  lemma RawRoom6(v: bv64, b: bv8)
    requires RoomBits(v, 7)
    ensures RoomBits(PushBits(v, b), 6) && RoomBits(v, 1)
  {}

  lemma RawRoom7(v: bv64, b: bv8)
    requires RoomBits(v, 8)
    ensures RoomBits(PushBits(v, b), 7) && RoomBits(v, 1)
  {}

  lemma PushRoom(v: bv64, b: bv8, n: nat)
    requires 0 < n <= 8 && RoomBits(v, n)
    ensures RoomBits(PushBits(v, b), n - 1) && RoomBits(v, 1)
  {
    hide PushBits, RoomBits;
    match n {
      case 1 => RoomZero(PushBits(v, b));
      case 2 => RawRoom1(v, b);
      case 3 => RawRoom2(v, b);
      case 4 => RawRoom3(v, b);
      case 5 => RawRoom4(v, b);
      case 6 => RawRoom5(v, b);
      case 7 => RawRoom6(v, b);
      case 8 => RawRoom7(v, b);
    }
  }

  lemma RoomZero(v: bv64) ensures RoomBits(v, 0) {}

  lemma RoomOfZero(n: nat) ensures RoomBits(0, n) {}

  lemma {:induction false} LoadRoom(b: Bytes)
    requires |b| <= 8
    ensures RoomBits(Load(b).v, 8 - |b|)
  {
    hide PushBits, RoomBits;
    if |b| == 0 {
      RoomOfZero(8);
    } else {
      LoadRoom(b[..|b| - 1]);
      PushRoom(Load(b[..|b| - 1]).v, b[|b| - 1], 9 - |b|);
    }
  }

  lemma StoreLowPush(w: Word, b: bv8, n: nat)
    requires RoomBits(w.v, 1)
    ensures StoreLow(Push(w, b), n + 1) == StoreLow(w, n) + [b]
  {
    hide PushBits, RoomBits, Shr8Bits, LowByteBits;
    RawPush(w.v, b);
    assert Shr8(Push(w, b)) == w;
  }

  lemma {:induction false} StoreLowLoad(b: Bytes)
    requires |b| <= 8
    ensures StoreLow(Load(b), |b|) == b
  {
    hide Push, RoomBits, Shr8, LowByte;
    if |b| > 0 {
      var c := b[..|b| - 1];
      LoadRoom(c);
      RoomOne(Load(c).v, 9 - |b|);
      StoreLowPush(Load(c), b[|b| - 1], |b| - 1);
      StoreLowLoad(c);
      assert c + [b[|b| - 1]] == b;
    }
  }

  lemma RoomOne(v: bv64, n: nat)
    requires 0 < n <= 8 && RoomBits(v, n)
    ensures RoomBits(v, 1)
  {
    hide PushBits, RoomBits;
    PushRoom(v, 0, n);
  }

  lemma StoreLoad(b: Bytes)
    requires |b| == 8
    ensures Store(Load(b)) == b
  {
    hide Load, StoreLow;
    StoreLowLoad(b);
  }

  // ---------- both are linear ----------

  lemma RawShrXor(v: bv64, w: bv64)
    ensures Shr8Bits(XorBits(v, w)) == XorBits(Shr8Bits(v), Shr8Bits(w))
  {}

  lemma RawLowXor(v: bv64, w: bv64)
    ensures LowByteBits(XorBits(v, w)) == XorByte(LowByteBits(v), LowByteBits(w))
  {}

  lemma {:induction false} StoreLowXor(a: Word, b: Word, n: nat)
    ensures StoreLow(Xor(a, b), n) == XorBytes(StoreLow(a, n), StoreLow(b, n))
    decreases n
  {
    hide Shr8Bits, LowByteBits, XorBits, XorByte, GetBit;
    if n > 0 {
      StoreLowXor(Shr8(a), Shr8(b), n - 1);
      RawShrXor(a.v, b.v);
      RawLowXor(a.v, b.v);
    }
  }

  lemma StoreXor(a: Word, b: Word)
    ensures Store(Xor(a, b)) == XorBytes(Store(a), Store(b))
  {
    hide StoreLow, XorBytes, Xor;
    StoreLowXor(a, b, 8);
  }

  // ---------- the loops ----------

  method Load64be(p: Bytes) returns (w: Word)
    requires |p| == 8
    ensures w == Load(p)
  {
    hide Push;
    w := Word(0);
    for i := 0 to 8
      invariant w == Load(p[..i])
    {
      w := Push(w, p[i]);
      assert p[..i + 1][..i] == p[..i];
    }
    assert p[..8] == p;
  }

  method Store64be(p: array<bv8>, at: nat, w: Word)
    requires at + 8 <= p.Length
    modifies p
    ensures p[..] == old(p[..at]) + Store(w) + old(p[at + 8..])
  {
    hide Shr8, LowByte;
    var v := w;
    var n := 8;
    while n > 0
      invariant 0 <= n <= 8
      invariant p[..at + n] == old(p[..at + n]) && p[at + 8..] == old(p[at + 8..])
      invariant StoreLow(v, n) + p[at + n..at + 8] == Store(w)
    {
      n := n - 1;
      p[at + n] := LowByte(v);
      assert StoreLow(v, n + 1) + p[at + n + 1..at + 8] == StoreLow(Shr8(v), n) + p[at + n..at + 8];
      v := Shr8(v);
    }
    assert p[at..at + 8] == Store(w);
    assert p[..] == p[..at] + p[at..at + 8] + p[at + 8..];
  }

  // ---------- the rate ----------

  function RateBytes(s: State): (b: Bytes)
    ensures |b| == 16
  {
    Store(s.x0) + Store(s.x1)
  }

  function SetRate(s: State, b: Bytes): State
    requires |b| == 16
  {
    s.(x0 := Load(b[..8]), x1 := Load(b[8..]))
  }

  lemma RateOfSetRate(s: State, b: Bytes)
    requires |b| == 16
    ensures RateBytes(SetRate(s, b)) == b
  {
    hide Load, Store;
    StoreLoad(b[..8]);
    StoreLoad(b[8..]);
  }

  // Adding two loaded words to the first two words of the state adds the bytes to the rate.
  lemma AddToRate(s: State, b: Bytes)
    requires |b| == 16
    ensures s.(x0 := Xor(s.x0, Load(b[..8])), x1 := Xor(s.x1, Load(b[8..]))) == SetRate(s, XorBytes(RateBytes(s), b))
  {
    hide Load, Store, Xor, XorBytes, GetBit;
    var p, q := Load(b[..8]), Load(b[8..]);
    StoreLoad(b[..8]);
    StoreLoad(b[8..]);
    StoreXor(s.x0, p);
    StoreXor(s.x1, q);
    LoadStore(Xor(s.x0, p));
    LoadStore(Xor(s.x1, q));
    XorBytesConcat(Store(s.x0), Store(s.x1), b[..8], b[8..]);
    assert b[..8] + b[8..] == b;
    var c := XorBytes(RateBytes(s), b);
    assert c == Store(Xor(s.x0, p)) + Store(Xor(s.x1, q));
    assert c[..8] == Store(Xor(s.x0, p)) && c[8..] == Store(Xor(s.x1, q));
  }

  lemma XorBytesConcat(a: Bytes, b: Bytes, c: Bytes, d: Bytes)
    requires |a| == |c| && |b| == |d|
    ensures XorBytes(a + b, c + d) == XorBytes(a, c) + XorBytes(b, d)
  {
    hide XorByte, GetBit;
  }
}
