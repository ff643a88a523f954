// The SPONGENT-160/160/16 permutation: its table-driven bit layer against the plain bit permutation, and its inverse.
module Spongent160 {
  import opened Wrappers
  import opened Bits
  import opened Encoding

  const STATE_BITS: nat := 176
  const STATE_BYTES: nat := 22
  const ROUNDS: nat := 90
  const ROW_BYTES: nat := 24
  const LFSR_INIT: bv8 := 0x45

  // ---------- state bits, least significant bit of each byte first ----------

  function Flip(j: nat): (i: nat)
    ensures i / 8 == j / 8 && Flipped(i) == j
  {
    8 * (j / 8) + (7 - j % 8)
  }

  function Flipped(i: nat): nat { 8 * (i / 8) + (7 - i % 8) }

  function StateBit(s: Bytes, j: nat): bool
    requires j < 8 * |s|
  {
    GetBit(s, Flip(j))
  }

  // Bit j of the state is a binary digit of its byte, least significant digit first.
  lemma StateBitIsDigit(s: Bytes, j: nat)
    requires j < 8 * |s|
    ensures StateBit(s, j) <==> (NatOf(s[j / 8]) / TwoTo(j % 8)) % 2 == 1
  {
    hide GetBit, NatOf, TwoTo;
    BitIsDigit(s, Flip(j));
  }

  lemma FlipBack(i: nat)
    ensures Flip(Flipped(i)) == i && Flipped(i) / 8 == i / 8
  {}

  lemma StateBitsDetermine(a: Bytes, b: Bytes)
    requires |a| == |b| && forall j :: 0 <= j < 8 * |a| ==> StateBit(a, j) == StateBit(b, j)
    ensures a == b
  {
    hide GetBit, Flip, Flipped;
    forall i | 0 <= i < 8 * |a| ensures GetBit(a, i) == GetBit(b, i) {
      FlipBack(i);
      assert StateBit(a, Flipped(i)) == StateBit(b, Flipped(i));
    }
    BitsDetermine(a, b);
  }

  // ---------- the bit permutation ----------

  // Where bit j goes.
  function PLayerIndex(j: nat): (p: nat)
    requires j < STATE_BITS
    ensures p < STATE_BITS
  {
    if j == STATE_BITS - 1 then STATE_BITS - 1 else (j * (STATE_BITS / 4)) % (STATE_BITS - 1)
  }

  // Where bit p comes from.
  function PLayerSource(p: nat): (j: nat)
    requires p < STATE_BITS
    ensures j < STATE_BITS
  {
    if p == STATE_BITS - 1 then STATE_BITS - 1 else (p * 4) % (STATE_BITS - 1)
  }

  // Multiplying by 44 and by 4 modulo 175 undo each other, because 44 * 4 = 175 + 1.
  lemma ScaleBack(a: nat, b: nat, c: nat, q: nat, r: nat)
    requires b * c == 176 && a * b == 175 * q + r
    ensures r * c == a + 175 * (a - q * c)
  {
    calc {
      r * c;
    ==
      (a * b - 175 * q) * c;
    ==
      a * b * c - 175 * q * c;
    == { assert a * b * c == a * (b * c); }
      a * 176 - 175 * q * c;
    }
  }

  lemma ModOf(a: nat, k: int)
    requires a < 175 && a + 175 * k >= 0
    ensures (a + 175 * k) % 175 == a
  {}

  lemma IndexThenSource(j: nat)
    requires j < STATE_BITS
    ensures PLayerSource(PLayerIndex(j)) == j
  {
    if j < STATE_BITS - 1 {
      var q, r := (j * 44) / 175, (j * 44) % 175;
      ScaleBack(j, 44, 4, q, r);
      ModOf(j, j - q * 4);
    }
  }

  lemma SourceThenIndex(j: nat)
    requires j < STATE_BITS
    ensures PLayerIndex(PLayerSource(j)) == j
  {
    if j < STATE_BITS - 1 {
      var q, r := (j * 4) / 175, (j * 4) % 175;
      ScaleBack(j, 4, 44, q, r);
      ModOf(j, j - q * 44);
    }
  }

  lemma IndexInverse(j: nat)
    requires j < STATE_BITS
    ensures PLayerSource(PLayerIndex(j)) == j
    ensures PLayerIndex(PLayerSource(j)) == j
  {
    hide PLayerIndex, PLayerSource;
    IndexThenSource(j);
    SourceThenIndex(j);
  }

  // The bits of the permuted state, in packing order.
  function PLayerBits(s: Bytes): (r: seq<bool>)
    requires |s| == STATE_BYTES
    ensures |r| == STATE_BITS
  {
    seq(STATE_BITS, i requires 0 <= i < STATE_BITS => StateBit(s, PLayerSource(Flipped(i))))
  }

  // The plain bit permutation: bit p of the result is bit source(p) of s.
  function PLayer(s: Bytes): (r: Bytes)
    requires |s| == STATE_BYTES
    ensures |r| == STATE_BYTES
  {
    Pack(PLayerBits(s))
  }

  lemma PLayerBit(s: Bytes, p: nat)
    requires |s| == STATE_BYTES && p < STATE_BITS
    ensures StateBit(PLayer(s), p) == StateBit(s, PLayerSource(p))
  {
    hide GetBit, Pack, PLayerSource;
    assert Flipped(Flip(p)) == p;
  }

  // Every bit j of the state moves to index(j).
  lemma PLayerMoves(s: Bytes, j: nat)
    requires |s| == STATE_BYTES && j < STATE_BITS
    ensures StateBit(PLayer(s), PLayerIndex(j)) == StateBit(s, j)
  {
    hide StateBit, PLayerIndex, PLayerSource, PLayer;
    IndexInverse(j);
    PLayerBit(s, PLayerIndex(j));
  }

  // ---------- the precomputed table ----------

  // Whether input byte i with value v sets bit p of the permuted state.
  predicate Maps(i: nat, v: bv8, p: nat) {
    p < STATE_BITS && PLayerSource(p) / 8 == i && ByteBit(v, 7 - PLayerSource(p) % 8)
  }

  // Bits 0 to n-1 of input byte i have been entered in the row.
  ghost predicate RowUpTo(r: Bytes, i: nat, v: bv8, n: nat) {
    && |r| == ROW_BYTES
    && forall p :: 0 <= p < 8 * ROW_BYTES ==>
         StateBit(r, p) == (p < STATE_BITS && PLayerSource(p) % 8 < n && Maps(i, v, p))
  }

  lemma RowStart(i: nat, v: bv8)
    ensures RowUpTo(ZeroBytes(ROW_BYTES), i, v, 0)
  {
    hide GetBit, PLayerSource, ByteBit, ZeroBytes;
  }

  lemma RowStep(r: Bytes, i: nat, v: bv8, n: nat)
    requires i < STATE_BYTES && n < 8 && RowUpTo(r, i, v, n)
    ensures Flip(PLayerIndex(8 * i + n)) < 8 * ROW_BYTES
    ensures RowUpTo(if ByteBit(v, 7 - n) then SetBit(r, Flip(PLayerIndex(8 * i + n)), true) else r, i, v, n + 1)
  {
    hide GetBit, PLayerSource, PLayerIndex, ByteBit, SetBit, Flip, Flipped;
    var dst := PLayerIndex(8 * i + n);
    IndexInverse(8 * i + n);
    forall p | 0 <= p < STATE_BITS ensures PLayerSource(p) == 8 * i + n <==> p == dst { IndexInverse(p); }
    var t := if ByteBit(v, 7 - n) then SetBit(r, Flip(dst), true) else r;
    forall p | 0 <= p < 8 * ROW_BYTES
      ensures StateBit(t, p) == (p < STATE_BITS && PLayerSource(p) % 8 < n + 1 && Maps(i, v, p))
    {
      FlipInjective(p, dst);
      assert StateBit(r, p) == (p < STATE_BITS && PLayerSource(p) % 8 < n && Maps(i, v, p));
    }
  }

  lemma FlipInjective(p: nat, q: nat)
    ensures Flip(p) == Flip(q) <==> p == q
  {}

  class PLayerTable {
    const row: array2<Bytes>

    ghost predicate Valid()
      reads this, row
    {
      && row.Length0 == STATE_BYTES && row.Length1 == 256
      && forall i, v :: 0 <= i < STATE_BYTES && 0 <= v < 256 ==> RowUpTo(row[i, v], i, ByteOf(v), 8)
    }

    constructor ()
      ensures Valid() && fresh(row)
    {
      row := new Bytes[STATE_BYTES, 256]((_, _) => []);
      new;
      hide RowUpTo, ByteOf;
      for i := 0 to STATE_BYTES
        invariant forall k, v :: 0 <= k < i && 0 <= v < 256 ==> RowUpTo(row[k, v], k, ByteOf(v), 8)
      {
        for value := 0 to 256
          invariant forall k, v :: 0 <= k < i && 0 <= v < 256 ==> RowUpTo(row[k, v], k, ByteOf(v), 8)
          invariant forall v :: 0 <= v < value ==> RowUpTo(row[i, v], i, ByteOf(v), 8)
        {
          var r := BuildRow(i, ByteOf(value));
          row[i, value] := r;
        }
      }
    }
  }

  method BuildRow(i: nat, v: bv8) returns (r: Bytes)
    requires i < STATE_BYTES
    ensures RowUpTo(r, i, v, 8)
  {
    hide RowUpTo, ByteBit, SetBit, GetBit, PLayerIndex, ZeroBytes;
    r := ZeroBytes(ROW_BYTES);
    RowStart(i, v);
    for bit := 0 to 8
      invariant |r| == ROW_BYTES && RowUpTo(r, i, v, bit)
    {
      RowStep(r, i, v, bit);
      if ByteBit(v, 7 - bit) { r := SetBit(r, Flip(PLayerIndex(8 * i + bit)), true); }
    }
  }

  // The contributions of the first n bytes have been added up.
  ghost predicate SumUpTo(w: Bytes, s: Bytes, n: nat)
    requires |s| == STATE_BYTES
  {
    && |w| == ROW_BYTES
    && forall p :: 0 <= p < 8 * ROW_BYTES ==>
         StateBit(w, p) == (p < STATE_BITS && PLayerSource(p) / 8 < n && StateBit(s, PLayerSource(p)))
  }

  lemma SumStart(s: Bytes)
    requires |s| == STATE_BYTES
    ensures SumUpTo(ZeroBytes(ROW_BYTES), s, 0)
  {
    hide GetBit, PLayerSource, ZeroBytes;
  }

  // Adding one more row cancels nothing: no bit of the result has two sources.
  lemma SumStep(w: Bytes, s: Bytes, n: nat, r: Bytes)
    requires |s| == STATE_BYTES && n < STATE_BYTES && SumUpTo(w, s, n) && RowUpTo(r, n, s[n], 8)
    ensures |w| == |r| && SumUpTo(XorBytes(w, r), s, n + 1)
  {
    hide GetBit, PLayerSource, XorBytes, ByteBit;
    forall p | 0 <= p < 8 * ROW_BYTES
      ensures StateBit(XorBytes(w, r), p)
           == (p < STATE_BITS && PLayerSource(p) / 8 < n + 1 && StateBit(s, PLayerSource(p)))
    {
      assert StateBit(XorBytes(w, r), p) == (StateBit(w, p) != StateBit(r, p));
      if p < STATE_BITS { StateBitOfByte(s, PLayerSource(p)); }
    }
  }

  lemma StateBitOfByte(s: Bytes, j: nat)
    requires j < 8 * |s|
    ensures StateBit(s, j) == ByteBit(s[j / 8], 7 - j % 8)
  {
    hide ByteBit;
    assert Flip(j) % 8 == 7 - j % 8;
  }

  lemma SumDone(w: Bytes, s: Bytes)
    requires |s| == STATE_BYTES && SumUpTo(w, s, STATE_BYTES)
    ensures w[..STATE_BYTES] == PLayer(s)
  {
    hide GetBit, PLayerSource, PLayer;
    var r := w[..STATE_BYTES];
    forall p | 0 <= p < STATE_BITS ensures StateBit(r, p) == StateBit(PLayer(s), p) {
      PrefixBit(w, STATE_BYTES, Flip(p));
      PLayerBit(s, p);
      assert StateBit(w, p) == (PLayerSource(p) / 8 < STATE_BYTES && StateBit(s, PLayerSource(p)));
    }
    StateBitsDetermine(r, PLayer(s));
  }

  lemma PrefixBit(w: Bytes, n: nat, i: nat)
    requires n <= |w| && i < 8 * n
    ensures GetBit(w[..n], i) == GetBit(w, i)
  {
    hide ByteBit;
  }

  // The table-driven layer is the plain bit permutation.
  method BitLayer(table: PLayerTable, state: array<bv8>)
    requires table.Valid() && state.Length == STATE_BYTES
    modifies state
    ensures state[..] == PLayer(old(state[..]))
  {
    hide PLayer, XorBytes, SumUpTo, RowUpTo, ZeroBytes, GetBit, ByteOf, NatOf;
    ghost var s := state[..];
    var w := ZeroBytes(ROW_BYTES);
    SumStart(s);
    for i := 0 to STATE_BYTES
      invariant |w| == ROW_BYTES && SumUpTo(w, s, i) && state[..] == s
      invariant table.Valid()
    {
      ByteOfNatOf(state[i]);
      var r := table.row[i, NatOf(state[i])];
      RowLength(r, i, s[i]);
      SumStep(w, s, i, r);
      w := XorBytes(w, r);
    }
    SumDone(w, s);
    for i := 0 to STATE_BYTES
      invariant forall k :: 0 <= k < i ==> state[k] == w[k]
    {
      state[i] := w[i];
    }
    assert state[..] == w[..STATE_BYTES];
  }

  lemma RowLength(r: Bytes, i: nat, v: bv8)
    requires RowUpTo(r, i, v, 8)
    ensures |r| == ROW_BYTES
  {}

  // ---------- the S-box and the round constants ----------

  // The PRESENT S-box.
  function Sbox(nibble: bv8): bv8 {
    var n := nibble & 0x0F;
    if n == 0 then 0xE else if n == 1 then 0xD else if n == 2 then 0xB else if n == 3 then 0x0
    else if n == 4 then 0x2 else if n == 5 then 0x1 else if n == 6 then 0x4 else if n == 7 then 0xF
    else if n == 8 then 0x7 else if n == 9 then 0xA else if n == 10 then 0x8 else if n == 11 then 0x5
    else if n == 12 then 0x9 else if n == 13 then 0xC else if n == 14 then 0x3 else 0x6
  }

  function Unsbox(n: bv8): bv8 {
    if n == 0xE then 0 else if n == 0xD then 1 else if n == 0xB then 2 else if n == 0 then 3
    else if n == 2 then 4 else if n == 1 then 5 else if n == 4 then 6 else if n == 0xF then 7
    else if n == 7 then 8 else if n == 0xA then 9 else if n == 8 then 10 else if n == 5 then 11
    else if n == 9 then 12 else if n == 0xC then 13 else if n == 3 then 14 else 15
  }

  // The S-box on both nibbles of a byte.
  function SboxByte(v: bv8): bv8 { (Sbox(v >> 4) << 4) | Sbox(v & 0x0F) }

  function UnsboxByte(v: bv8): bv8 { (Unsbox(v >> 4) << 4) | Unsbox(v & 0x0F) }

  lemma SboxInvertible(v: bv8)
    ensures UnsboxByte(SboxByte(v)) == v
  {}

  lemma SboxOnto(v: bv8)
    ensures SboxByte(UnsboxByte(v)) == v
  {}

  function ReverseByte(b: bv8): bv8 {
    var v := ((b & 0xF0) >> 4) | ((b & 0x0F) << 4);
    var w := ((v & 0xCC) >> 2) | ((v & 0x33) << 2);
    ((w & 0xAA) >> 1) | ((w & 0x55) << 1)
  }

  // Each bit moves to the opposite place.
  lemma ReverseBit(b: bv8, k: nat)
    requires k < 8
    ensures ByteBit(ReverseByte(b), k) == ByteBit(b, 7 - k)
  {}

  // The 7-bit counter, feedback x^7 + x^6 + 1.
  function LfsrNext(v: bv8): bv8 {
    var feedback := ((v & 0x40) >> 6) ^ ((v & 0x20) >> 5);
    ((v << 1) | feedback) & 0x7F
  }

  // The counter stays within seven bits, never becomes zero, and different values have different successors.
  lemma LfsrSteps(v: bv8, w: bv8)
    requires v & 0x80 == 0 && w & 0x80 == 0
    ensures LfsrNext(v) & 0x80 == 0
    ensures v != 0 ==> LfsrNext(v) != 0
    ensures LfsrNext(v) == LfsrNext(w) ==> v == w
  {}

  // ---------- rounds ----------

  function AddConstants(s: Bytes, lfsr: bv8): (r: Bytes)
    requires |s| == STATE_BYTES
    ensures |r| == STATE_BYTES
  {
    var t := s[0 := XorByte(s[0], lfsr)];
    t[STATE_BYTES - 1 := XorByte(t[STATE_BYTES - 1], ReverseByte(lfsr))]
  }

  function SboxLayer(s: Bytes): (r: Bytes)
    ensures |r| == |s|
  {
    seq(|s|, i requires 0 <= i < |s| => SboxByte(s[i]))
  }

  function UnsboxLayer(s: Bytes): (r: Bytes)
    ensures |r| == |s|
  {
    seq(|s|, i requires 0 <= i < |s| => UnsboxByte(s[i]))
  }

  // Bit j of the result is bit index(j) of s.
  function UnPLayer(s: Bytes): (r: Bytes)
    requires |s| == STATE_BYTES
    ensures |r| == STATE_BYTES
  {
    Pack(seq(STATE_BITS, i requires 0 <= i < STATE_BITS => StateBit(s, PLayerIndex(Flipped(i)))))
  }

  lemma UnPLayerBit(s: Bytes, j: nat)
    requires |s| == STATE_BYTES && j < STATE_BITS
    ensures StateBit(UnPLayer(s), j) == StateBit(s, PLayerIndex(j))
  {
    hide GetBit, Pack, PLayerIndex;
    assert Flipped(Flip(j)) == j;
  }

  lemma PLayerInvertible(s: Bytes)
    requires |s| == STATE_BYTES
    ensures UnPLayer(PLayer(s)) == s
    ensures PLayer(UnPLayer(s)) == s
  {
    hide GetBit, PLayer, UnPLayer, PLayerIndex, PLayerSource;
    forall j | 0 <= j < STATE_BITS
      ensures StateBit(UnPLayer(PLayer(s)), j) == StateBit(s, j)
      ensures StateBit(PLayer(UnPLayer(s)), j) == StateBit(s, j)
    {
      IndexInverse(j);
      UnPLayerBit(PLayer(s), j);
      PLayerBit(s, PLayerIndex(j));
      PLayerBit(UnPLayer(s), j);
      UnPLayerBit(s, PLayerSource(j));
    }
    StateBitsDetermine(UnPLayer(PLayer(s)), s);
    StateBitsDetermine(PLayer(UnPLayer(s)), s);
  }

  lemma SboxLayerInvertible(s: Bytes)
    ensures UnsboxLayer(SboxLayer(s)) == s
    ensures SboxLayer(UnsboxLayer(s)) == s
  {
    hide SboxByte, UnsboxByte;
    forall i | 0 <= i < |s|
      ensures UnsboxLayer(SboxLayer(s))[i] == s[i] && SboxLayer(UnsboxLayer(s))[i] == s[i]
    {
      SboxInvertible(s[i]);
      SboxOnto(s[i]);
    }
  }

  lemma RawXorTwice(v: bv8, w: bv8) ensures XorByte(XorByte(v, w), w) == v {}

  lemma ConstantsTwice(s: Bytes, lfsr: bv8)
    requires |s| == STATE_BYTES
    ensures AddConstants(AddConstants(s, lfsr), lfsr) == s
  {
    hide XorByte, ReverseByte;
    RawXorTwice(s[0], lfsr);
    RawXorTwice(s[STATE_BYTES - 1], ReverseByte(lfsr));
  }

  function Round(s: Bytes, lfsr: bv8): (r: Bytes)
    requires |s| == STATE_BYTES
    ensures |r| == STATE_BYTES
  {
    PLayer(SboxLayer(AddConstants(s, lfsr)))
  }

  function Unround(s: Bytes, lfsr: bv8): (r: Bytes)
    requires |s| == STATE_BYTES
    ensures |r| == STATE_BYTES
  {
    AddConstants(UnsboxLayer(UnPLayer(s)), lfsr)
  }

  lemma RoundInvertible(s: Bytes, lfsr: bv8)
    requires |s| == STATE_BYTES
    ensures Unround(Round(s, lfsr), lfsr) == s
    ensures Round(Unround(s, lfsr), lfsr) == s
  {
    hide AddConstants, SboxLayer, UnsboxLayer, PLayer, UnPLayer;
    ConstantsTwice(s, lfsr);
    SboxLayerInvertible(AddConstants(s, lfsr));
    PLayerInvertible(SboxLayer(AddConstants(s, lfsr)));
    PLayerInvertible(s);
    SboxLayerInvertible(UnPLayer(s));
    ConstantsTwice(UnsboxLayer(UnPLayer(s)), lfsr);
  }

  // The counter enters a round: different counters give different results on every state.
  lemma RoundCounter(s: Bytes, a: bv8, b: bv8)
    requires |s| == STATE_BYTES && Round(s, a) == Round(s, b)
    ensures a == b
  {
    hide SboxLayer, UnsboxLayer, PLayer, UnPLayer, XorByte, ReverseByte;
    var s', t' := AddConstants(s, a), AddConstants(s, b);
    PLayerInvertible(SboxLayer(s'));
    PLayerInvertible(SboxLayer(t'));
    SboxLayerInvertible(s');
    SboxLayerInvertible(t');
    assert s'[0] == t'[0];
    RawXorTwice(a, s[0]);
    RawXorTwice(b, s[0]);
    RawXorComm(a, s[0]);
    RawXorComm(b, s[0]);
  }

  lemma RawXorComm(v: bv8, w: bv8) ensures XorByte(v, w) == XorByte(w, v) {}

  // Before the S-box a seven-bit counter flips bits 0 to 6 of the state by its digits, and bits 175 down to 169 by the
  // same digits; no other bit changes.
  lemma ConstantBits(s: Bytes, lfsr: bv8, j: nat)
    requires |s| == STATE_BYTES && j < STATE_BITS && NatOf(lfsr) < 128
    ensures StateBit(AddConstants(s, lfsr), j) ==
            (StateBit(s, j) != (if j < 7 then (NatOf(lfsr) / TwoTo(j)) % 2 == 1
                                else if j > 168 then (NatOf(lfsr) / TwoTo(175 - j)) % 2 == 1
                                else false))
  {
    hide ByteBit, XorByte, ReverseByte, NatOf, TwoTo, StateBit;
    var t := AddConstants(s, lfsr);
    StateBitOfByte(s, j);
    StateBitOfByte(t, j);
    PlaceValues();
    if j < 8 {
      ByteXor(s[0], lfsr, 7 - j);
      DigitOfByte(lfsr, 7 - j);
    } else if j >= 168 {
      ByteXor(s[21], ReverseByte(lfsr), 175 - j);
      ReverseBit(lfsr, 175 - j);
      DigitOfByte(lfsr, j - 168);
    }
  }

  // n rounds, starting from the given counter.
  function Rounds(s: Bytes, lfsr: bv8, n: nat): (r: Bytes)
    requires |s| == STATE_BYTES
    ensures |r| == STATE_BYTES
    decreases n, s, lfsr
  {
    hide Round, LfsrNext;
    if n == 0 then s else Rounds(Round(s, lfsr), LfsrNext(lfsr), n - 1)
  }

  function Unrounds(s: Bytes, lfsr: bv8, n: nat): (r: Bytes)
    requires |s| == STATE_BYTES
    ensures |r| == STATE_BYTES
    decreases n, s, lfsr
  {
    hide Unround, LfsrNext;
    if n == 0 then s else Unround(Unrounds(s, LfsrNext(lfsr), n - 1), lfsr)
  }

  lemma {:induction false} RoundsInvertible(s: Bytes, lfsr: bv8, n: nat)
    requires |s| == STATE_BYTES
    ensures Unrounds(Rounds(s, lfsr, n), lfsr, n) == s
    ensures Rounds(Unrounds(s, lfsr, n), lfsr, n) == s
    decreases n
  {
    hide Round, Unround, LfsrNext;
    if n > 0 {
      RoundInvertible(s, lfsr);
      RoundsInvertible(Round(s, lfsr), LfsrNext(lfsr), n - 1);
      RoundsInvertible(s, LfsrNext(lfsr), n - 1);
      RoundInvertible(Unrounds(s, LfsrNext(lfsr), n - 1), lfsr);
    }
  }

  function Permute(s: Bytes): (r: Bytes)
    requires |s| == STATE_BYTES
    ensures |r| == STATE_BYTES
  {
    Rounds(s, LFSR_INIT, ROUNDS)
  }

  function Unpermute(s: Bytes): (r: Bytes)
    requires |s| == STATE_BYTES
    ensures |r| == STATE_BYTES
  {
    Unrounds(s, LFSR_INIT, ROUNDS)
  }

  // The 90-round permutation is a bijection on 176-bit states.
  lemma PermuteInvertible(s: Bytes)
    requires |s| == STATE_BYTES
    ensures Unpermute(Permute(s)) == s
    ensures Permute(Unpermute(s)) == s
  {
    hide Rounds, Unrounds;
    RoundsInvertible(s, LFSR_INIT, ROUNDS);
  }

  // ---------- the in-place code ----------

  method SpongentPermute(table: PLayerTable, state: array<bv8>)
    requires table.Valid() && state.Length == STATE_BYTES
    modifies state
    ensures state[..] == Permute(old(state[..]))
  {
    hide Rounds, Round, LfsrNext, PLayerTable.Valid, PLayer, AddConstants, SboxLayer;
    var lfsr := LFSR_INIT;
    var round := 0;
    while round < ROUNDS
      invariant 0 <= round <= ROUNDS
      invariant Rounds(state[..], lfsr, ROUNDS - round) == Permute(old(state[..]))
      invariant table.Valid()
    {
      ghost var s := state[..];
      AddRoundConstants(state, lfsr);
      RoundsStep(s, lfsr, ROUNDS - round);
      lfsr := LfsrNext(lfsr);
      SubstituteBytes(state);
      BitLayer(table, state);
      round := round + 1;
    }
    RoundsStep(state[..], lfsr, 0);
  }

  lemma RoundsStep(s: Bytes, lfsr: bv8, n: nat)
    requires |s| == STATE_BYTES
    ensures Rounds(s, lfsr, n) == if n == 0 then s else Rounds(PLayer(SboxLayer(AddConstants(s, lfsr))), LfsrNext(lfsr), n - 1)
  {
    hide PLayer, SboxLayer, AddConstants, LfsrNext;
  }

  method AddRoundConstants(state: array<bv8>, lfsr: bv8)
    requires state.Length == STATE_BYTES
    modifies state
    ensures state[..] == AddConstants(old(state[..]), lfsr)
  {
    hide XorByte, ReverseByte;
    state[0] := XorByte(state[0], lfsr);
    state[STATE_BYTES - 1] := XorByte(state[STATE_BYTES - 1], ReverseByte(lfsr));
  }

  method SubstituteBytes(state: array<bv8>)
    requires state.Length == STATE_BYTES
    modifies state
    ensures state[..] == SboxLayer(old(state[..]))
  {
    hide SboxByte;
    for i := 0 to STATE_BYTES
      invariant forall k :: 0 <= k < i ==> state[k] == SboxByte(old(state[k]))
      invariant forall k :: i <= k < STATE_BYTES ==> state[k] == old(state[k])
    {
      state[i] := SboxByte(state[i]);
    }
  }
}
