// Known answers of SPONGENT-160: the ninety rounds on the padding block of the empty message, and the digest they begin.
module SpongentVectors {
  import opened Bits
  import opened Encoding
  import opened Spongent160
  import opened Sponge

  // ---------- the bit layer, byte by byte ----------

  // Bits b and 4 + b, counted from the least significant one.
  function Two(b: nat, v: bv8): bv8 {
    match b
    case 0 => (v & 1) | ((v >> 3) & 2)
    case 1 => ((v >> 1) & 1) | ((v >> 4) & 2)
    case 2 => ((v >> 2) & 1) | ((v >> 5) & 2)
    case _ => ((v >> 3) & 1) | ((v >> 6) & 2)
  }

  function Joined(p: bv8, q: bv8, r: bv8, t: bv8): bv8 { p | (q << 2) | (r << 4) | (t << 6) }

  lemma TwoBits(b: nat, v: bv8)
    requires b < 4
    ensures ByteBit(Two(b, v), 7) == ByteBit(v, 7 - b) && ByteBit(Two(b, v), 6) == ByteBit(v, 3 - b)
    ensures Two(b, v) < 4
  {}

  lemma JoinedBits(p: bv8, q: bv8, r: bv8, t: bv8)
    requires p < 4 && q < 4 && r < 4 && t < 4
    ensures ByteBit(Joined(p, q, r, t), 7) == ByteBit(p, 7) && ByteBit(Joined(p, q, r, t), 6) == ByteBit(p, 6)
    ensures ByteBit(Joined(p, q, r, t), 5) == ByteBit(q, 7) && ByteBit(Joined(p, q, r, t), 4) == ByteBit(q, 6)
    ensures ByteBit(Joined(p, q, r, t), 3) == ByteBit(r, 7) && ByteBit(Joined(p, q, r, t), 2) == ByteBit(r, 6)
    ensures ByteBit(Joined(p, q, r, t), 1) == ByteBit(t, 7) && ByteBit(Joined(p, q, r, t), 0) == ByteBit(t, 6)
  {}

  // Bits 8 i + 2 q and the next one of the permuted state: the bits numbered p / 44 of two neighbouring nibbles.
  function Pair(s: Bytes, i: nat, q: nat): bv8
    requires |s| == STATE_BYTES && i < STATE_BYTES && q < 4
  {
    var p := 8 * i + 2 * q;
    Two(p / 44, s[(p % 44) / 2])
  }

  lemma SourceIs(p: nat)
    requires p < STATE_BITS
    ensures PLayerSource(p) == 4 * (p % 44) + p / 44
  {
    var a, b := p % 44, p / 44;
    assert p * 4 == (4 * a + b) + 175 * b;
    if p < STATE_BITS - 1 { ModOf(4 * a + b, b); }
  }

  lemma Places(p: nat)
    requires p < STATE_BITS && p % 2 == 0
    ensures PLayerSource(p) / 8 == (p % 44) / 2 && PLayerSource(p) % 8 == p / 44
    ensures p + 1 < STATE_BITS && PLayerSource(p + 1) / 8 == (p % 44) / 2 && PLayerSource(p + 1) % 8 == 4 + p / 44
  {
    hide PLayerSource;
    SourceIs(p);
    SourceIs(p + 1);
    var h := (p % 44) / 2;
    assert p % 44 == 2 * h && (p + 1) % 44 == 2 * h + 1 && (p + 1) / 44 == p / 44;
  }

  lemma PairBits(s: Bytes, i: nat, q: nat)
    requires |s| == STATE_BYTES && i < STATE_BYTES && q < 4
    ensures ByteBit(PLayer(s)[i], 7 - 2 * q) == ByteBit(Pair(s, i, q), 7)
    ensures ByteBit(PLayer(s)[i], 6 - 2 * q) == ByteBit(Pair(s, i, q), 6)
    ensures Pair(s, i, q) < 4
  {
    hide ByteBit, PLayer, Two, PLayerSource, StateBit;
    var p := 8 * i + 2 * q;
    TwoBits(p / 44, s[(p % 44) / 2]);
    Places(p);
    PLayerBit(s, p);
    PLayerBit(s, p + 1);
    StateBitOfByte(PLayer(s), p);
    StateBitOfByte(PLayer(s), p + 1);
    StateBitOfByte(s, PLayerSource(p));
    StateBitOfByte(s, PLayerSource(p + 1));
  }

  // The bit layer as the source's table computes it, read off two nibbles at a time.
  lemma PLayerByte(s: Bytes, i: nat)
    requires |s| == STATE_BYTES && i < STATE_BYTES
    ensures PLayer(s)[i] == Joined(Pair(s, i, 0), Pair(s, i, 1), Pair(s, i, 2), Pair(s, i, 3))
  {
    hide ByteBit, PLayer, Pair, Joined;
    PairBits(s, i, 0);
    PairBits(s, i, 1);
    PairBits(s, i, 2);
    PairBits(s, i, 3);
    JoinedBits(Pair(s, i, 0), Pair(s, i, 1), Pair(s, i, 2), Pair(s, i, 3));
    ByteExt(PLayer(s)[i], Joined(Pair(s, i, 0), Pair(s, i, 1), Pair(s, i, 2), Pair(s, i, 3)));
  }

  // ---------- a round on literal bytes ----------

  datatype Cells = C(b0: bv8, b1: bv8, b2: bv8, b3: bv8, b4: bv8, b5: bv8, b6: bv8, b7: bv8, b8: bv8, b9: bv8, b10: bv8, b11: bv8, b12: bv8, b13: bv8, b14: bv8, b15: bv8, b16: bv8, b17: bv8, b18: bv8, b19: bv8, b20: bv8, b21: bv8)

  function Listed(c: Cells): (s: Bytes)
    ensures |s| == STATE_BYTES
  {
    seq(STATE_BYTES, i requires 0 <= i < STATE_BYTES => At(c, i))
  }

  function At(c: Cells, i: nat): bv8 {
    match i
    case 0 => c.b0
    case 1 => c.b1
    case 2 => c.b2
    case 3 => c.b3
    case 4 => c.b4
    case 5 => c.b5
    case 6 => c.b6
    case 7 => c.b7
    case 8 => c.b8
    case 9 => c.b9
    case 10 => c.b10
    case 11 => c.b11
    case 12 => c.b12
    case 13 => c.b13
    case 14 => c.b14
    case 15 => c.b15
    case 16 => c.b16
    case 17 => c.b17
    case 18 => c.b18
    case 19 => c.b19
    case 20 => c.b20
    case _ => c.b21
  }

  // The S-box on both nibbles, out of one table of sixteen nibbles.
  function Quick(v: bv8): bv8 {
    var n, t: bv64 := v as bv64, 0x63c9_58a7_f412_0bde;
    (((t >> ((n & 15) << 2)) & 15) | (((t >> ((n >> 4) << 2)) & 15) << 4)) as bv8
  }

  lemma QuickIs(v: bv8) ensures SboxByte(v) == Quick(v) {}

  function Substituted(c: Cells, l: bv8): Cells {
    C(Quick(XorByte(c.b0, l)), Quick(c.b1), Quick(c.b2), Quick(c.b3), Quick(c.b4), Quick(c.b5), Quick(c.b6), Quick(c.b7), Quick(c.b8), Quick(c.b9), Quick(c.b10), Quick(c.b11), Quick(c.b12), Quick(c.b13), Quick(c.b14), Quick(c.b15), Quick(c.b16), Quick(c.b17), Quick(c.b18), Quick(c.b19), Quick(c.b20),
      Quick(XorByte(c.b21, ReverseByte(l))))
  }

  // Four bytes give the bits b of their nibbles.
  function Plane(b: nat, v: bv8, w: bv8, x: bv8, y: bv8): bv8 {
    match b
    case 0 => ((v & 1) | ((v >> 3) & 2)) | (((w & 1) | ((w >> 3) & 2)) << 2) | (((x & 1) | ((x >> 3) & 2)) << 4) | (((y & 1) | ((y >> 3) & 2)) << 6)
    case 1 => (((v >> 1) & 1) | ((v >> 4) & 2)) | ((((w >> 1) & 1) | ((w >> 4) & 2)) << 2) | ((((x >> 1) & 1) | ((x >> 4) & 2)) << 4) | ((((y >> 1) & 1) | ((y >> 4) & 2)) << 6)
    case 2 => (((v >> 2) & 1) | ((v >> 5) & 2)) | ((((w >> 2) & 1) | ((w >> 5) & 2)) << 2) | ((((x >> 2) & 1) | ((x >> 5) & 2)) << 4) | ((((y >> 2) & 1) | ((y >> 5) & 2)) << 6)
    case _ => (((v >> 3) & 1) | ((v >> 6) & 2)) | ((((w >> 3) & 1) | ((w >> 6) & 2)) << 2) | ((((x >> 3) & 1) | ((x >> 6) & 2)) << 4) | ((((y >> 3) & 1) | ((y >> 6) & 2)) << 6)
  }

  lemma Plane0(v: bv8, w: bv8, x: bv8, y: bv8)
    ensures Plane(0, v, w, x, y) == Joined(Two(0, v), Two(0, w), Two(0, x), Two(0, y))
  {}

  lemma Plane1(v: bv8, w: bv8, x: bv8, y: bv8)
    ensures Plane(1, v, w, x, y) == Joined(Two(1, v), Two(1, w), Two(1, x), Two(1, y))
  {}

  lemma Plane2(v: bv8, w: bv8, x: bv8, y: bv8)
    ensures Plane(2, v, w, x, y) == Joined(Two(2, v), Two(2, w), Two(2, x), Two(2, y))
  {}

  lemma Plane3(v: bv8, w: bv8, x: bv8, y: bv8)
    ensures Plane(3, v, w, x, y) == Joined(Two(3, v), Two(3, w), Two(3, x), Two(3, y))
  {}

  lemma PlaneIs(b: nat, v: bv8, w: bv8, x: bv8, y: bv8)
    requires b < 4
    ensures Plane(b, v, w, x, y) == Joined(Two(b, v), Two(b, w), Two(b, x), Two(b, y))
  {
    hide Plane, Joined, Two;
    match b {
      case 0 => Plane0(v, w, x, y);
      case 1 => Plane1(v, w, x, y);
      case 2 => Plane2(v, w, x, y);
      case _ => Plane3(v, w, x, y);
    }
  }

  function Straddle(b: nat, v: bv8, w: bv8, x: bv8, y: bv8): bv8 {
    Joined(Two(b, v), Two(b, w), Two(b + 1, x), Two(b + 1, y))
  }

  function Permuted(c: Cells): Cells {
    C(Plane(0, c.b0, c.b1, c.b2, c.b3),
      Plane(0, c.b4, c.b5, c.b6, c.b7),
      Plane(0, c.b8, c.b9, c.b10, c.b11),
      Plane(0, c.b12, c.b13, c.b14, c.b15),
      Plane(0, c.b16, c.b17, c.b18, c.b19),
      Straddle(0, c.b20, c.b21, c.b0, c.b1),
      Plane(1, c.b2, c.b3, c.b4, c.b5),
      Plane(1, c.b6, c.b7, c.b8, c.b9),
      Plane(1, c.b10, c.b11, c.b12, c.b13),
      Plane(1, c.b14, c.b15, c.b16, c.b17),
      Plane(1, c.b18, c.b19, c.b20, c.b21),
      Plane(2, c.b0, c.b1, c.b2, c.b3),
      Plane(2, c.b4, c.b5, c.b6, c.b7),
      Plane(2, c.b8, c.b9, c.b10, c.b11),
      Plane(2, c.b12, c.b13, c.b14, c.b15),
      Plane(2, c.b16, c.b17, c.b18, c.b19),
      Straddle(2, c.b20, c.b21, c.b0, c.b1),
      Plane(3, c.b2, c.b3, c.b4, c.b5),
      Plane(3, c.b6, c.b7, c.b8, c.b9),
      Plane(3, c.b10, c.b11, c.b12, c.b13),
      Plane(3, c.b14, c.b15, c.b16, c.b17),
      Plane(3, c.b18, c.b19, c.b20, c.b21))
  }

  function Step(c: Cells, l: bv8): Cells { Permuted(Substituted(c, l)) }

  // Away from the ends of the planes a byte of the permuted state comes from four bytes in a row.
  lemma InPlane(s: Bytes, i: nat, b: nat, x: nat)
    requires |s| == STATE_BYTES && i < STATE_BYTES && b < 4 && x + 3 < STATE_BYTES
    requires 8 * i == 44 * b + 2 * x && 2 * x + 6 < 44
    ensures PLayer(s)[i] == Plane(b, s[x], s[x + 1], s[x + 2], s[x + 3])
  {
    hide PLayer, Plane, Two, Joined;
    PLayerByte(s, i);
    PlaneIs(b, s[x], s[x + 1], s[x + 2], s[x + 3]);
    InPlanePair(s, i, b, x, 0);
    InPlanePair(s, i, b, x, 1);
    InPlanePair(s, i, b, x, 2);
    InPlanePair(s, i, b, x, 3);
  }

  lemma InPlanePair(s: Bytes, i: nat, b: nat, x: nat, q: nat)
    requires |s| == STATE_BYTES && i < STATE_BYTES && b < 4 && q < 4 && x + q < STATE_BYTES
    requires 8 * i + 2 * q == 44 * b + 2 * (x + q) && x + q < 22
    ensures Pair(s, i, q) == Two(b, s[x + q])
  {
    hide Two;
  }

  // Two bytes end one plane and two begin the next.
  lemma AcrossPlanes(s: Bytes, i: nat, b: nat)
    requires |s| == STATE_BYTES && i < STATE_BYTES && b < 3 && 8 * i == 44 * b + 40
    ensures PLayer(s)[i] == Straddle(b, s[20], s[21], s[0], s[1])
  {
    hide PLayer, Two, Joined;
    PLayerByte(s, i);
    InPlanePair(s, i, b, 20, 0);
    InPlanePair(s, i, b, 20, 1);
    BeginPair(s, i, b, 2);
    BeginPair(s, i, b, 3);
  }

  lemma BeginPair(s: Bytes, i: nat, b: nat, q: nat)
    requires |s| == STATE_BYTES && i < STATE_BYTES && b < 3 && 2 <= q < 4 && 8 * i == 44 * b + 40
    ensures Pair(s, i, q) == Two(b + 1, s[q - 2])
  {
    hide Two;
    assert 8 * i + 2 * q == 44 * (b + 1) + 2 * (q - 2);
  }

  lemma PermutedBytes0(c: Cells)
    ensures PLayer(Listed(c))[0] == Permuted(c).b0
    ensures PLayer(Listed(c))[1] == Permuted(c).b1
    ensures PLayer(Listed(c))[2] == Permuted(c).b2
    ensures PLayer(Listed(c))[3] == Permuted(c).b3
    ensures PLayer(Listed(c))[4] == Permuted(c).b4
    ensures PLayer(Listed(c))[5] == Permuted(c).b5
  {
    hide PLayer, Plane, Straddle;
    var s := Listed(c);
    InPlane(s, 0, 0, 0);
    InPlane(s, 1, 0, 4);
    InPlane(s, 2, 0, 8);
    InPlane(s, 3, 0, 12);
    InPlane(s, 4, 0, 16);
    AcrossPlanes(s, 5, 0);
  }

  lemma PermutedBytes1(c: Cells)
    ensures PLayer(Listed(c))[6] == Permuted(c).b6
    ensures PLayer(Listed(c))[7] == Permuted(c).b7
    ensures PLayer(Listed(c))[8] == Permuted(c).b8
    ensures PLayer(Listed(c))[9] == Permuted(c).b9
    ensures PLayer(Listed(c))[10] == Permuted(c).b10
    ensures PLayer(Listed(c))[11] == Permuted(c).b11
  {
    hide PLayer, Plane, Straddle;
    var s := Listed(c);
    InPlane(s, 6, 1, 2);
    InPlane(s, 7, 1, 6);
    InPlane(s, 8, 1, 10);
    InPlane(s, 9, 1, 14);
    InPlane(s, 10, 1, 18);
    InPlane(s, 11, 2, 0);
  }

  lemma PermutedBytes2(c: Cells)
    ensures PLayer(Listed(c))[12] == Permuted(c).b12
    ensures PLayer(Listed(c))[13] == Permuted(c).b13
    ensures PLayer(Listed(c))[14] == Permuted(c).b14
    ensures PLayer(Listed(c))[15] == Permuted(c).b15
    ensures PLayer(Listed(c))[16] == Permuted(c).b16
  {
    hide PLayer, Plane, Straddle;
    var s := Listed(c);
    InPlane(s, 12, 2, 4);
    InPlane(s, 13, 2, 8);
    InPlane(s, 14, 2, 12);
    InPlane(s, 15, 2, 16);
    AcrossPlanes(s, 16, 2);
  }

  lemma PermutedBytes3(c: Cells)
    ensures PLayer(Listed(c))[17] == Permuted(c).b17
    ensures PLayer(Listed(c))[18] == Permuted(c).b18
    ensures PLayer(Listed(c))[19] == Permuted(c).b19
    ensures PLayer(Listed(c))[20] == Permuted(c).b20
    ensures PLayer(Listed(c))[21] == Permuted(c).b21
  {
    hide PLayer, Plane, Straddle;
    var s := Listed(c);
    InPlane(s, 17, 3, 2);
    InPlane(s, 18, 3, 6);
    InPlane(s, 19, 3, 10);
    InPlane(s, 20, 3, 14);
    InPlane(s, 21, 3, 18);
  }

  lemma PermutedIs(c: Cells)
    ensures PLayer(Listed(c)) == Listed(Permuted(c))
  {
    hide PLayer, Permuted;
    PermutedBytes0(c); PermutedBytes1(c); PermutedBytes2(c); PermutedBytes3(c);
  }

  lemma SubstitutedIs(c: Cells, l: bv8)
    ensures SboxLayer(AddConstants(Listed(c), l)) == Listed(Substituted(c, l))
  {
    hide SboxByte, XorByte, ReverseByte, Listed, Substituted;
    var s, t := SboxLayer(AddConstants(Listed(c), l)), Listed(Substituted(c, l));
    forall i | 0 <= i < STATE_BYTES ensures s[i] == t[i] { SubstitutedAt(c, l, i); }
  }

  lemma SubstitutedAt(c: Cells, l: bv8, i: nat)
    requires i < STATE_BYTES
    ensures SboxByte(AddConstants(Listed(c), l)[i]) == Listed(Substituted(c, l))[i]
  {
    hide SboxByte, XorByte, ReverseByte, Quick, AddConstants;
    QuickIs(AddConstants(Listed(c), l)[i]);
    ConstantsAt(Listed(c), l, i);
  }

  lemma ConstantsAt(s: Bytes, l: bv8, i: nat)
    requires |s| == STATE_BYTES && i < STATE_BYTES
    ensures AddConstants(s, l)[i] ==
            if i == 0 then XorByte(s[i], l) else if i == 21 then XorByte(s[i], ReverseByte(l)) else s[i]
  {
    hide XorByte, ReverseByte;
  }

  // A step on cells is a round.
  lemma Next(c: Cells, l: bv8, n: nat, d: Cells, m: bv8)
    requires n > 0 && Step(c, l) == d && LfsrNext(l) == m
    ensures Rounds(Listed(c), l, n) == Rounds(Listed(d), m, n - 1)
  {
    hide Listed, Rounds, PLayer, SboxLayer, AddConstants, Permuted, Substituted, LfsrNext;
    SubstitutedIs(c, l);
    PermutedIs(Substituted(c, l));
    RoundsStep(Listed(c), l, n);
  }

  // ---------- the ninety rounds ----------

  lemma From0()
    ensures Rounds(Listed(C(0x80, 0x00, 0x00, 0x00, 0x00, 0x00, 0x00, 0x00, 0x00, 0x00, 0x00, 0x00, 0x00, 0x00, 0x00, 0x00, 0x00, 0x00, 0x00, 0x00, 0x00, 0x00)), 0x45, 90) ==
            Rounds(Listed(C(0x00, 0x88, 0xf3, 0x83, 0xaa, 0x2a, 0x9b, 0xef, 0x99, 0xbf, 0x78, 0x8d, 0xdc, 0x65, 0xda, 0x41, 0x10, 0x11, 0x99, 0x7a, 0x3c, 0xeb)), 0x67, 84)
  {
    hide Rounds, Listed;
    Next(C(0x80, 0x00, 0x00, 0x00, 0x00, 0x00, 0x00, 0x00, 0x00, 0x00, 0x00, 0x00, 0x00, 0x00, 0x00, 0x00, 0x00, 0x00, 0x00, 0x00, 0x00, 0x00), 0x45, 90,
         C(0x03, 0x00, 0x00, 0x00, 0x00, 0xc4, 0xff, 0xff, 0xff, 0xff, 0x7f, 0xfc, 0xff, 0xff, 0xff, 0xff, 0xe3, 0xff, 0xff, 0xff, 0xff, 0xff), 0x0b);
    Next(C(0x03, 0x00, 0x00, 0x00, 0x00, 0xc4, 0xff, 0xff, 0xff, 0xff, 0x7f, 0xfc, 0xff, 0xff, 0xff, 0xff, 0xe3, 0xff, 0xff, 0xff, 0xff, 0xff), 0x0b, 89,
         C(0x01, 0x08, 0x60, 0x00, 0x02, 0xf8, 0x7f, 0xff, 0xfb, 0xef, 0xff, 0xff, 0xf3, 0xbf, 0xff, 0xfc, 0xe7, 0xbf, 0x00, 0x06, 0x00, 0x80), 0x16);
    Next(C(0x01, 0x08, 0x60, 0x00, 0x02, 0xf8, 0x7f, 0xff, 0xfb, 0xef, 0xff, 0xff, 0xf3, 0xbf, 0xff, 0xfc, 0xe7, 0xbf, 0x00, 0x06, 0x00, 0x80), 0x16, 88,
         C(0x07, 0x25, 0x09, 0x48, 0x0b, 0xdc, 0xfd, 0xef, 0x6f, 0x7b, 0xfb, 0xff, 0xfe, 0xf7, 0xbe, 0xfd, 0xb7, 0x3d, 0x02, 0x00, 0x14, 0x3b), 0x2c);
    Next(C(0x07, 0x25, 0x09, 0x48, 0x0b, 0xdc, 0xfd, 0xef, 0x6f, 0x7b, 0xfb, 0xff, 0xfe, 0xf7, 0xbe, 0xfd, 0xb7, 0x3d, 0x02, 0x00, 0x14, 0x3b), 0x2c, 87,
         C(0x4f, 0x85, 0x1c, 0x35, 0x13, 0xa2, 0x2f, 0x9e, 0xfe, 0x19, 0xdf, 0x61, 0x7b, 0xff, 0xee, 0xe7, 0xae, 0xe3, 0x81, 0x40, 0x54, 0xaf), 0x59);
    Next(C(0x4f, 0x85, 0x1c, 0x35, 0x13, 0xa2, 0x2f, 0x9e, 0xfe, 0x19, 0xdf, 0x61, 0x7b, 0xff, 0xee, 0xe7, 0xae, 0xe3, 0x81, 0x40, 0x54, 0xaf), 0x59, 86,
         C(0x7e, 0x66, 0x49, 0xf3, 0x39, 0x86, 0x40, 0x7f, 0xe1, 0x9f, 0x1e, 0x2b, 0x12, 0xfa, 0x4f, 0x70, 0x20, 0xe3, 0xca, 0x26, 0x24, 0x05), 0x33);
    Next(C(0x7e, 0x66, 0x49, 0xf3, 0x39, 0x86, 0x40, 0x7f, 0xe1, 0x9f, 0x1e, 0x2b, 0x12, 0xfa, 0x4f, 0x70, 0x20, 0xe3, 0xca, 0x26, 0x24, 0x05), 0x33, 85,
         C(0x00, 0x88, 0xf3, 0x83, 0xaa, 0x2a, 0x9b, 0xef, 0x99, 0xbf, 0x78, 0x8d, 0xdc, 0x65, 0xda, 0x41, 0x10, 0x11, 0x99, 0x7a, 0x3c, 0xeb), 0x67);
  }

  lemma From6()
    ensures Rounds(Listed(C(0x00, 0x88, 0xf3, 0x83, 0xaa, 0x2a, 0x9b, 0xef, 0x99, 0xbf, 0x78, 0x8d, 0xdc, 0x65, 0xda, 0x41, 0x10, 0x11, 0x99, 0x7a, 0x3c, 0xeb)), 0x67, 84) ==
            Rounds(Listed(C(0xdd, 0x52, 0xf8, 0x31, 0xb0, 0xeb, 0x7d, 0x20, 0xc7, 0xdc, 0x77, 0x41, 0x65, 0xc0, 0xef, 0x8f, 0x62, 0x41, 0x24, 0xcb, 0x7a, 0x7d)), 0x54, 78)
  {
    hide Rounds, Listed;
    Next(C(0x00, 0x88, 0xf3, 0x83, 0xaa, 0x2a, 0x9b, 0xef, 0x99, 0xbf, 0x78, 0x8d, 0xdc, 0x65, 0xda, 0x41, 0x10, 0x11, 0x99, 0x7a, 0x3c, 0xeb), 0x67, 84,
         C(0x8d, 0x98, 0xb8, 0x45, 0x8e, 0xd1, 0x8a, 0x7e, 0x0b, 0x18, 0x8b, 0xaf, 0x50, 0xfc, 0x6a, 0x8f, 0x1c, 0xf0, 0x32, 0x36, 0xf7, 0xdf), 0x4e);
    Next(C(0x8d, 0x98, 0xb8, 0x45, 0x8e, 0xd1, 0x8a, 0x7e, 0x0b, 0x18, 0x8b, 0xaf, 0x50, 0xfc, 0x6a, 0x8f, 0x1c, 0xf0, 0x32, 0x36, 0xf7, 0xdf), 0x4e, 83,
         C(0x76, 0xe7, 0x3d, 0x86, 0x13, 0xc1, 0x39, 0x6e, 0x96, 0xcc, 0x31, 0x34, 0xae, 0x7f, 0xe9, 0x4e, 0xa7, 0xc0, 0xa9, 0x58, 0x71, 0xd1), 0x1d);
    Next(C(0x76, 0xe7, 0x3d, 0x86, 0x13, 0xc1, 0x39, 0x6e, 0x96, 0xcc, 0x31, 0x34, 0xae, 0x7f, 0xe9, 0x4e, 0xa7, 0xc0, 0xa9, 0x58, 0x71, 0xd1), 0x1d, 82,
         C(0x8d, 0x4e, 0x1c, 0x69, 0xc9, 0xc3, 0x08, 0x25, 0xd4, 0x5f, 0x65, 0xd7, 0x86, 0x11, 0x0c, 0x45, 0x4b, 0xe1, 0xe1, 0xa1, 0xf1, 0x73), 0x3a);
    Next(C(0x8d, 0x4e, 0x1c, 0x69, 0xc9, 0xc3, 0x08, 0x25, 0xd4, 0x5f, 0x65, 0xd7, 0x86, 0x11, 0x0c, 0x45, 0x4b, 0xe1, 0xe1, 0xa1, 0xf1, 0x73), 0x3a, 81,
         C(0x37, 0xda, 0x58, 0x5e, 0x7d, 0xd9, 0x14, 0x5b, 0x24, 0xaa, 0xe2, 0xa3, 0x30, 0xe6, 0x2f, 0x55, 0x17, 0xb7, 0x2a, 0xcc, 0x43, 0x9d), 0x75);
    Next(C(0x37, 0xda, 0x58, 0x5e, 0x7d, 0xd9, 0x14, 0x5b, 0x24, 0xaa, 0xe2, 0xa3, 0x30, 0xe6, 0x2f, 0x55, 0x17, 0xb7, 0x2a, 0xcc, 0x43, 0x9d), 0x75, 80,
         C(0xf1, 0xe2, 0x32, 0xe8, 0xef, 0x30, 0x65, 0x31, 0x93, 0x53, 0x22, 0x18, 0x6b, 0x00, 0x15, 0x0f, 0xd0, 0xf0, 0xe2, 0x19, 0x72, 0x0f), 0x6a);
    Next(C(0xf1, 0xe2, 0x32, 0xe8, 0xef, 0x30, 0x65, 0x31, 0x93, 0x53, 0x22, 0x18, 0x6b, 0x00, 0x15, 0x0f, 0xd0, 0xf0, 0xe2, 0x19, 0x72, 0x0f), 0x6a, 79,
         C(0xdd, 0x52, 0xf8, 0x31, 0xb0, 0xeb, 0x7d, 0x20, 0xc7, 0xdc, 0x77, 0x41, 0x65, 0xc0, 0xef, 0x8f, 0x62, 0x41, 0x24, 0xcb, 0x7a, 0x7d), 0x54);
  }

  lemma From12()
    ensures Rounds(Listed(C(0xdd, 0x52, 0xf8, 0x31, 0xb0, 0xeb, 0x7d, 0x20, 0xc7, 0xdc, 0x77, 0x41, 0x65, 0xc0, 0xef, 0x8f, 0x62, 0x41, 0x24, 0xcb, 0x7a, 0x7d)), 0x54, 78) ==
            Rounds(Listed(C(0x51, 0xab, 0x48, 0xcb, 0x86, 0xac, 0x07, 0x74, 0x31, 0x9d, 0x50, 0x88, 0x47, 0x5b, 0x89, 0x5d, 0xfd, 0xfb, 0x21, 0xb0, 0x82, 0xf8)), 0x3e, 72)
  {
    hide Rounds, Listed;
    Next(C(0xdd, 0x52, 0xf8, 0x31, 0xb0, 0xeb, 0x7d, 0x20, 0xc7, 0xdc, 0x77, 0x41, 0x65, 0xc0, 0xef, 0x8f, 0x62, 0x41, 0x24, 0xcb, 0x7a, 0x7d), 0x54, 78,
         C(0x5e, 0xae, 0x77, 0xa9, 0xe5, 0x7e, 0x93, 0x1e, 0x4b, 0x9f, 0x63, 0x72, 0x77, 0x79, 0xd6, 0x46, 0x56, 0x14, 0xff, 0xc7, 0x50, 0x7a), 0x29);
    Next(C(0x5e, 0xae, 0x77, 0xa9, 0xe5, 0x7e, 0x93, 0x1e, 0x4b, 0x9f, 0x63, 0x72, 0x77, 0x79, 0xd6, 0x46, 0x56, 0x14, 0xff, 0xc7, 0x50, 0x7a), 0x29, 77,
         C(0x37, 0xcf, 0xc1, 0x0b, 0xca, 0x7e, 0xe7, 0xe6, 0xfc, 0x48, 0xd7, 0x33, 0x88, 0xa5, 0x7b, 0x79, 0xb1, 0x8f, 0x8a, 0xfc, 0x82, 0x1c), 0x53);
    Next(C(0x37, 0xcf, 0xc1, 0x0b, 0xca, 0x7e, 0xe7, 0xe6, 0xfc, 0x48, 0xd7, 0x33, 0x88, 0xa5, 0x7b, 0x79, 0xb1, 0x8f, 0x8a, 0xfc, 0x82, 0x1c), 0x53, 76,
         C(0x78, 0xbe, 0x15, 0xb7, 0x6b, 0x53, 0xc8, 0xeb, 0x31, 0xce, 0x3a, 0xd6, 0x58, 0x36, 0xb3, 0xaf, 0x8e, 0xbb, 0x11, 0x83, 0x1e, 0x95), 0x27);
    Next(C(0x78, 0xbe, 0x15, 0xb7, 0x6b, 0x53, 0xc8, 0xeb, 0x31, 0xce, 0x3a, 0xd6, 0x58, 0x36, 0xb3, 0xaf, 0x8e, 0xbb, 0x11, 0x83, 0x1e, 0x95), 0x27, 75,
         C(0xfe, 0xf9, 0x0d, 0x23, 0xbf, 0x5f, 0x04, 0x49, 0x10, 0x34, 0x98, 0xe9, 0x53, 0xc1, 0x65, 0xbe, 0x0e, 0x06, 0x92, 0x09, 0x08, 0xe3), 0x4f);
    Next(C(0xfe, 0xf9, 0x0d, 0x23, 0xbf, 0x5f, 0x04, 0x49, 0x10, 0x34, 0x98, 0xe9, 0x53, 0xc1, 0x65, 0xbe, 0x0e, 0x06, 0x92, 0x09, 0x08, 0xe3), 0x4f, 74,
         C(0x83, 0x0a, 0x92, 0xde, 0x11, 0xcd, 0x5a, 0x5f, 0x0f, 0xb4, 0x3f, 0x3b, 0x27, 0x13, 0xa4, 0x8e, 0x5f, 0x0b, 0x36, 0xc6, 0xa0, 0xef), 0x1f);
    Next(C(0x83, 0x0a, 0x92, 0xde, 0x11, 0xcd, 0x5a, 0x5f, 0x0f, 0xb4, 0x3f, 0x3b, 0x27, 0x13, 0xa4, 0x8e, 0x5f, 0x0b, 0x36, 0xc6, 0xa0, 0xef), 0x1f, 73,
         C(0x51, 0xab, 0x48, 0xcb, 0x86, 0xac, 0x07, 0x74, 0x31, 0x9d, 0x50, 0x88, 0x47, 0x5b, 0x89, 0x5d, 0xfd, 0xfb, 0x21, 0xb0, 0x82, 0xf8), 0x3e);
  }

  lemma From18()
    ensures Rounds(Listed(C(0x51, 0xab, 0x48, 0xcb, 0x86, 0xac, 0x07, 0x74, 0x31, 0x9d, 0x50, 0x88, 0x47, 0x5b, 0x89, 0x5d, 0xfd, 0xfb, 0x21, 0xb0, 0x82, 0xf8)), 0x3e, 72) ==
            Rounds(Listed(C(0x09, 0x6d, 0x75, 0xbb, 0x8e, 0x55, 0x4d, 0x78, 0x91, 0xe3, 0xaf, 0x96, 0x2b, 0x98, 0x82, 0xad, 0xc5, 0xf2, 0x69, 0x1f, 0x46, 0x1c)), 0x21, 66)
  {
    hide Rounds, Listed;
    Next(C(0x51, 0xab, 0x48, 0xcb, 0x86, 0xac, 0x07, 0x74, 0x31, 0x9d, 0x50, 0x88, 0x47, 0x5b, 0x89, 0x5d, 0xfd, 0xfb, 0x21, 0xb0, 0x82, 0xf8), 0x3e, 72,
         C(0xd4, 0x96, 0xe1, 0xad, 0xb4, 0x1b, 0x23, 0x8f, 0x3d, 0xa3, 0xf6, 0x57, 0xb3, 0xd5, 0x65, 0xdf, 0x8a, 0xc8, 0xdb, 0x11, 0x15, 0x17), 0x7d);
    Next(C(0xd4, 0x96, 0xe1, 0xad, 0xb4, 0x1b, 0x23, 0x8f, 0x3d, 0xa3, 0xf6, 0x57, 0xb3, 0xd5, 0x65, 0xdf, 0x8a, 0xc8, 0xdb, 0x11, 0x15, 0x17), 0x7d, 71,
         C(0x30, 0xae, 0xc0, 0x16, 0xde, 0x93, 0x12, 0x0e, 0x06, 0x64, 0x40, 0x54, 0xce, 0x71, 0xea, 0xf6, 0xb2, 0x8d, 0x92, 0x84, 0x98, 0xee), 0x7a);
    Next(C(0x30, 0xae, 0xc0, 0x16, 0xde, 0x93, 0x12, 0x0e, 0x06, 0x64, 0x40, 0x54, 0xce, 0x71, 0xea, 0xf6, 0xb2, 0x8d, 0x92, 0x84, 0x98, 0xee), 0x7a, 70,
         C(0xa4, 0x71, 0x80, 0x2f, 0x9b, 0x69, 0x91, 0x6d, 0x97, 0x9a, 0x7f, 0xd0, 0xa2, 0x1b, 0xcc, 0x8e, 0x9d, 0xab, 0x2b, 0xe1, 0x51, 0x63), 0x74);
    Next(C(0xa4, 0x71, 0x80, 0x2f, 0x9b, 0x69, 0x91, 0x6d, 0x97, 0x9a, 0x7f, 0xd0, 0xa2, 0x1b, 0xcc, 0x8e, 0x9d, 0xab, 0x2b, 0xe1, 0x51, 0x63), 0x74, 69,
         C(0xac, 0x11, 0x21, 0xfd, 0xf4, 0x93, 0x6f, 0xb2, 0x17, 0x2c, 0x8a, 0x7f, 0xd9, 0xf1, 0x8c, 0x55, 0xf5, 0x69, 0xf7, 0xbe, 0xb3, 0x56), 0x68);
    Next(C(0xac, 0x11, 0x21, 0xfd, 0xf4, 0x93, 0x6f, 0xb2, 0x17, 0x2c, 0x8a, 0x7f, 0xd9, 0xf1, 0x8c, 0x55, 0xf5, 0x69, 0xf7, 0xbe, 0xb3, 0x56), 0x68, 68,
         C(0x3e, 0xc0, 0xaf, 0xf4, 0xd1, 0x12, 0xba, 0x95, 0x9e, 0x62, 0xc7, 0xdc, 0xb2, 0xe3, 0x2e, 0xba, 0xe6, 0x87, 0xf4, 0x79, 0x41, 0x41), 0x50);
    Next(C(0x3e, 0xc0, 0xaf, 0xf4, 0xd1, 0x12, 0xba, 0x95, 0x9e, 0x62, 0xc7, 0xdc, 0xb2, 0xe3, 0x2e, 0xba, 0xe6, 0x87, 0xf4, 0x79, 0x41, 0x41), 0x50, 67,
         C(0x09, 0x6d, 0x75, 0xbb, 0x8e, 0x55, 0x4d, 0x78, 0x91, 0xe3, 0xaf, 0x96, 0x2b, 0x98, 0x82, 0xad, 0xc5, 0xf2, 0x69, 0x1f, 0x46, 0x1c), 0x21);
  }

  lemma From24()
    ensures Rounds(Listed(C(0x09, 0x6d, 0x75, 0xbb, 0x8e, 0x55, 0x4d, 0x78, 0x91, 0xe3, 0xaf, 0x96, 0x2b, 0x98, 0x82, 0xad, 0xc5, 0xf2, 0x69, 0x1f, 0x46, 0x1c)), 0x21, 66) ==
            Rounds(Listed(C(0x85, 0x99, 0x2c, 0x62, 0x68, 0x33, 0xd2, 0xe4, 0xde, 0x06, 0xaf, 0x10, 0x51, 0xaf, 0xff, 0x49, 0xc6, 0x37, 0xfb, 0xbe, 0xe2, 0xd6)), 0x71, 60)
  {
    hide Rounds, Listed;
    Next(C(0x09, 0x6d, 0x75, 0xbb, 0x8e, 0x55, 0x4d, 0x78, 0x91, 0xe3, 0xaf, 0x96, 0x2b, 0x98, 0x82, 0xad, 0xc5, 0xf2, 0x69, 0x1f, 0x46, 0x1c), 0x21, 66,
         C(0xf3, 0xcf, 0x09, 0x37, 0x87, 0x34, 0x32, 0xae, 0xe9, 0xc3, 0xe5, 0xed, 0xd2, 0x51, 0x65, 0xe8, 0x65, 0x02, 0x39, 0xaa, 0x6d, 0x89), 0x43);
    Next(C(0xf3, 0xcf, 0x09, 0x37, 0x87, 0x34, 0x32, 0xae, 0xe9, 0xc3, 0xe5, 0xed, 0xd2, 0x51, 0x65, 0xe8, 0x65, 0x02, 0x39, 0xaa, 0x6d, 0x89), 0x43, 65,
         C(0x4a, 0x53, 0xba, 0xdd, 0x05, 0x54, 0x77, 0x35, 0x1a, 0xcc, 0x81, 0x67, 0x03, 0x40, 0x66, 0x0a, 0x97, 0x17, 0x99, 0x74, 0xc0, 0x1d), 0x07);
    Next(C(0x4a, 0x53, 0xba, 0xdd, 0x05, 0x54, 0x77, 0x35, 0x1a, 0xcc, 0x81, 0x67, 0x03, 0x40, 0x66, 0x0a, 0x97, 0x17, 0x99, 0x74, 0xc0, 0x1d), 0x07, 64,
         C(0x28, 0x79, 0x7e, 0x00, 0x8d, 0x22, 0x60, 0x03, 0xe6, 0x78, 0x9f, 0xe1, 0x32, 0xf2, 0xb6, 0x8d, 0x1d, 0x2d, 0xf3, 0x65, 0xfc, 0x7b), 0x0e);
    Next(C(0x28, 0x79, 0x7e, 0x00, 0x8d, 0x22, 0x60, 0x03, 0xe6, 0x78, 0x9f, 0xe1, 0x32, 0xf2, 0xb6, 0x8d, 0x1d, 0x2d, 0xf3, 0x65, 0xfc, 0x7b), 0x0e, 63,
         C(0x3a, 0x0e, 0xce, 0xa5, 0x4a, 0xe5, 0xef, 0xe9, 0xdb, 0x88, 0xa2, 0xe9, 0xb3, 0x5d, 0xf8, 0xa7, 0xee, 0xde, 0x89, 0x56, 0xf4, 0x90), 0x1c);
    Next(C(0x3a, 0x0e, 0xce, 0xa5, 0x4a, 0xe5, 0xef, 0xe9, 0xdb, 0x88, 0xa2, 0xe9, 0xb3, 0x5d, 0xf8, 0xa7, 0xee, 0xde, 0x89, 0x56, 0xf4, 0x90), 0x1c, 62,
         C(0x76, 0xac, 0x9d, 0x5a, 0xa7, 0xe4, 0xa1, 0xcf, 0x0d, 0x77, 0x73, 0x09, 0x10, 0x0f, 0x76, 0x68, 0xa6, 0x1a, 0x24, 0x47, 0x8c, 0x81), 0x38);
    Next(C(0x76, 0xac, 0x9d, 0x5a, 0xa7, 0xe4, 0xa1, 0xcf, 0x0d, 0x77, 0x73, 0x09, 0x10, 0x0f, 0x76, 0x68, 0xa6, 0x1a, 0x24, 0x47, 0x8c, 0x81), 0x38, 61,
         C(0x85, 0x99, 0x2c, 0x62, 0x68, 0x33, 0xd2, 0xe4, 0xde, 0x06, 0xaf, 0x10, 0x51, 0xaf, 0xff, 0x49, 0xc6, 0x37, 0xfb, 0xbe, 0xe2, 0xd6), 0x71);
  }

  lemma From30()
    ensures Rounds(Listed(C(0x85, 0x99, 0x2c, 0x62, 0x68, 0x33, 0xd2, 0xe4, 0xde, 0x06, 0xaf, 0x10, 0x51, 0xaf, 0xff, 0x49, 0xc6, 0x37, 0xfb, 0xbe, 0xe2, 0xd6)), 0x71, 60) ==
            Rounds(Listed(C(0x70, 0x4e, 0x7b, 0xc3, 0x30, 0xde, 0x10, 0x3a, 0xc2, 0x16, 0xb5, 0xb0, 0xe0, 0xad, 0x7b, 0x84, 0xc8, 0xd4, 0x56, 0x17, 0x9c, 0xd1)), 0x49, 54)
  {
    hide Rounds, Listed;
    Next(C(0x85, 0x99, 0x2c, 0x62, 0x68, 0x33, 0xd2, 0xe4, 0xde, 0x06, 0xaf, 0x10, 0x51, 0xaf, 0xff, 0x49, 0xc6, 0x37, 0xfb, 0xbe, 0xe2, 0xd6), 0x71, 60,
         C(0x70, 0x91, 0x81, 0x03, 0xd6, 0xff, 0x16, 0x9d, 0x45, 0x4f, 0x76, 0x82, 0x23, 0xde, 0x35, 0xb5, 0xc4, 0x07, 0xa3, 0x9e, 0x64, 0x10), 0x62);
    Next(C(0x70, 0x91, 0x81, 0x03, 0xd6, 0xff, 0x16, 0x9d, 0x45, 0x4f, 0x76, 0x82, 0x23, 0xde, 0x35, 0xb5, 0xc4, 0x07, 0xa3, 0x9e, 0x64, 0x10), 0x62, 59,
         C(0x37, 0x20, 0xe1, 0xd6, 0x46, 0x98, 0xca, 0xe8, 0x6e, 0xd0, 0x1c, 0xb6, 0x7f, 0xb4, 0x88, 0x0c, 0xf6, 0x29, 0x0e, 0xa6, 0xe0, 0x0a), 0x44);
    Next(C(0x37, 0x20, 0xe1, 0xd6, 0x46, 0x98, 0xca, 0xe8, 0x6e, 0xd0, 0x1c, 0xb6, 0x7f, 0xb4, 0x88, 0x0c, 0xf6, 0x29, 0x0e, 0xa6, 0xe0, 0x0a), 0x44, 58,
         C(0x3a, 0xe4, 0xb1, 0x7a, 0x18, 0xee, 0xe2, 0x5c, 0x70, 0xeb, 0xf3, 0xd6, 0x45, 0xee, 0xbb, 0x63, 0xe5, 0x89, 0xc3, 0x23, 0xcc, 0x9a), 0x09);
    Next(C(0x3a, 0xe4, 0xb1, 0x7a, 0x18, 0xee, 0xe2, 0x5c, 0x70, 0xeb, 0xf3, 0xd6, 0x45, 0xee, 0xbb, 0x63, 0xe5, 0x89, 0xc3, 0x23, 0xcc, 0x9a), 0x09, 57,
         C(0xb8, 0xff, 0x0e, 0x3d, 0xab, 0xc3, 0xd8, 0xb3, 0xe2, 0xe0, 0x88, 0xb0, 0x03, 0xe7, 0xb0, 0x08, 0x08, 0x2d, 0x35, 0x08, 0x40, 0xfa), 0x12);
    Next(C(0xb8, 0xff, 0x0e, 0x3d, 0xab, 0xc3, 0xd8, 0xb3, 0xe2, 0xe0, 0x88, 0xb0, 0x03, 0xe7, 0xb0, 0x08, 0x08, 0x2d, 0x35, 0x08, 0x40, 0xfa), 0x12, 56,
         C(0x10, 0x99, 0xbb, 0x6c, 0x59, 0xcc, 0x03, 0xf1, 0xe7, 0xbd, 0x7c, 0x6c, 0xb1, 0xf4, 0xf6, 0xc7, 0x39, 0xa6, 0x52, 0x64, 0xe9, 0x58), 0x24);
    Next(C(0x10, 0x99, 0xbb, 0x6c, 0x59, 0xcc, 0x03, 0xf1, 0xe7, 0xbd, 0x7c, 0x6c, 0xb1, 0xf4, 0xf6, 0xc7, 0x39, 0xa6, 0x52, 0x64, 0xe9, 0x58), 0x24, 55,
         C(0x70, 0x4e, 0x7b, 0xc3, 0x30, 0xde, 0x10, 0x3a, 0xc2, 0x16, 0xb5, 0xb0, 0xe0, 0xad, 0x7b, 0x84, 0xc8, 0xd4, 0x56, 0x17, 0x9c, 0xd1), 0x49);
  }

  lemma From36()
    ensures Rounds(Listed(C(0x70, 0x4e, 0x7b, 0xc3, 0x30, 0xde, 0x10, 0x3a, 0xc2, 0x16, 0xb5, 0xb0, 0xe0, 0xad, 0x7b, 0x84, 0xc8, 0xd4, 0x56, 0x17, 0x9c, 0xd1)), 0x49, 54) ==
            Rounds(Listed(C(0x8e, 0x6b, 0x31, 0x61, 0xd0, 0x6f, 0xba, 0x86, 0xa3, 0xf3, 0x6e, 0x5b, 0x55, 0x09, 0xd5, 0x2b, 0x1a, 0x8a, 0xb5, 0xed, 0xb5, 0x1f)), 0x6d, 48)
  {
    hide Rounds, Listed;
    Next(C(0x70, 0x4e, 0x7b, 0xc3, 0x30, 0xde, 0x10, 0x3a, 0xc2, 0x16, 0xb5, 0xb0, 0xe0, 0xad, 0x7b, 0x84, 0xc8, 0xd4, 0x56, 0x17, 0x9c, 0xd1), 0x49, 54,
         C(0xb4, 0x24, 0xbb, 0xb2, 0xe3, 0xd1, 0x52, 0x11, 0x34, 0x5e, 0xa4, 0x30, 0x39, 0xec, 0xb5, 0xd9, 0x10, 0x9a, 0xb7, 0xd4, 0xa2, 0x3c), 0x13);
    Next(C(0xb4, 0x24, 0xbb, 0xb2, 0xe3, 0xd1, 0x52, 0x11, 0x34, 0x5e, 0xa4, 0x30, 0x39, 0xec, 0xb5, 0xd9, 0x10, 0x9a, 0xb7, 0xd4, 0xa2, 0x3c), 0x13, 53,
         C(0xf9, 0xf6, 0x0c, 0x3c, 0x32, 0xd1, 0x24, 0x51, 0x95, 0x94, 0xd5, 0xb1, 0xcc, 0x40, 0xa0, 0xb3, 0xb8, 0xc4, 0x0d, 0x56, 0xfc, 0x39), 0x26);
    Next(C(0xf9, 0xf6, 0x0c, 0x3c, 0x32, 0xd1, 0x24, 0x51, 0x95, 0x94, 0xd5, 0xb1, 0xcc, 0x40, 0xa0, 0xb3, 0xb8, 0xc4, 0x0d, 0x56, 0xfc, 0x39), 0x26, 52,
         C(0x50, 0xe5, 0xd1, 0x83, 0x8b, 0x99, 0x12, 0xe3, 0xc0, 0x51, 0x22, 0x2f, 0x4c, 0xe0, 0x94, 0x73, 0x26, 0xd7, 0xa6, 0x76, 0x83, 0x53), 0x4d);
    Next(C(0x50, 0xe5, 0xd1, 0x83, 0x8b, 0x99, 0x12, 0xe3, 0xc0, 0x51, 0x22, 0x2f, 0x4c, 0xe0, 0x94, 0x73, 0x26, 0xd7, 0xa6, 0x76, 0x83, 0x53), 0x4d, 51,
         C(0x9e, 0xb3, 0xbe, 0x89, 0x86, 0x8e, 0xe8, 0x19, 0xef, 0x6b, 0xa8, 0xb3, 0x23, 0x45, 0x84, 0xdd, 0x36, 0xc3, 0x73, 0x5b, 0xea, 0x4a), 0x1b);
    Next(C(0x9e, 0xb3, 0xbe, 0x89, 0x86, 0x8e, 0xe8, 0x19, 0xef, 0x6b, 0xa8, 0xb3, 0x23, 0x45, 0x84, 0xdd, 0x36, 0xc3, 0x73, 0x5b, 0xea, 0x4a), 0x1b, 50,
         C(0xbb, 0xbe, 0x96, 0x26, 0xe8, 0x26, 0xed, 0x37, 0xa1, 0x03, 0xe2, 0xaa, 0x9b, 0x9d, 0xe0, 0x61, 0x00, 0x04, 0x0c, 0x22, 0x8c, 0xd2), 0x36);
    Next(C(0xbb, 0xbe, 0x96, 0x26, 0xe8, 0x26, 0xed, 0x37, 0xa1, 0x03, 0xe2, 0xaa, 0x9b, 0x9d, 0xe0, 0x61, 0x00, 0x04, 0x0c, 0x22, 0x8c, 0xd2), 0x36, 49,
         C(0x8e, 0x6b, 0x31, 0x61, 0xd0, 0x6f, 0xba, 0x86, 0xa3, 0xf3, 0x6e, 0x5b, 0x55, 0x09, 0xd5, 0x2b, 0x1a, 0x8a, 0xb5, 0xed, 0xb5, 0x1f), 0x6d);
  }

  lemma From42()
    ensures Rounds(Listed(C(0x8e, 0x6b, 0x31, 0x61, 0xd0, 0x6f, 0xba, 0x86, 0xa3, 0xf3, 0x6e, 0x5b, 0x55, 0x09, 0xd5, 0x2b, 0x1a, 0x8a, 0xb5, 0xed, 0xb5, 0x1f)), 0x6d, 48) ==
            Rounds(Listed(C(0x17, 0x80, 0xd8, 0xf5, 0x09, 0xbe, 0x26, 0x41, 0xba, 0xf0, 0x3a, 0x2d, 0x48, 0xab, 0x80, 0xa3, 0x68, 0x10, 0x6f, 0x64, 0x5f, 0x6b)), 0x5b, 42)
  {
    hide Rounds, Listed;
    Next(C(0x8e, 0x6b, 0x31, 0x61, 0xd0, 0x6f, 0xba, 0x86, 0xa3, 0xf3, 0x6e, 0x5b, 0x55, 0x09, 0xd5, 0x2b, 0x1a, 0x8a, 0xb5, 0xed, 0xb5, 0x1f), 0x6d, 48,
         C(0x56, 0xa0, 0xd0, 0xd3, 0xba, 0x23, 0x50, 0x88, 0xc1, 0x88, 0x48, 0xdc, 0xef, 0x68, 0x68, 0x6a, 0x02, 0x35, 0x21, 0xc0, 0x7a, 0xc4), 0x5a);
    Next(C(0x56, 0xa0, 0xd0, 0xd3, 0xba, 0x23, 0x50, 0x88, 0xc1, 0x88, 0x48, 0xdc, 0xef, 0x68, 0x68, 0x6a, 0x02, 0x35, 0x21, 0xc0, 0x7a, 0xc4), 0x5a, 47,
         C(0x01, 0xea, 0x5f, 0x16, 0xb5, 0x66, 0x81, 0xcd, 0x73, 0x31, 0xe6, 0xb6, 0xd2, 0x9d, 0xbd, 0x52, 0xf2, 0x9b, 0x31, 0x0c, 0x34, 0xbf), 0x35);
    Next(C(0x01, 0xea, 0x5f, 0x16, 0xb5, 0x66, 0x81, 0xcd, 0x73, 0x31, 0xe6, 0xb6, 0xd2, 0x9d, 0xbd, 0x52, 0xf2, 0x9b, 0x31, 0x0c, 0x34, 0xbf), 0x35, 46,
         C(0xa8, 0xb3, 0xa6, 0xe1, 0x55, 0x98, 0x01, 0x22, 0x92, 0xb4, 0x18, 0xd0, 0x7e, 0xd6, 0x36, 0x96, 0x48, 0x08, 0x6d, 0xf0, 0x95, 0x8d), 0x6b);
    Next(C(0xa8, 0xb3, 0xa6, 0xe1, 0x55, 0x98, 0x01, 0x22, 0x92, 0xb4, 0x18, 0xd0, 0x7e, 0xd6, 0x36, 0x96, 0x48, 0x08, 0x6d, 0xf0, 0x95, 0x8d), 0x6b, 45,
         C(0xca, 0xd7, 0x39, 0x03, 0x05, 0x0d, 0xc8, 0x7e, 0x35, 0xf8, 0x2c, 0x58, 0x34, 0xf8, 0x5e, 0xfd, 0x24, 0x86, 0x3f, 0xae, 0x88, 0x25), 0x56);
    Next(C(0xca, 0xd7, 0x39, 0x03, 0x05, 0x0d, 0xc8, 0x7e, 0x35, 0xf8, 0x2c, 0x58, 0x34, 0xf8, 0x5e, 0xfd, 0x24, 0x86, 0x3f, 0xae, 0x88, 0x25), 0x56, 44,
         C(0x05, 0xf1, 0xf5, 0x34, 0x4a, 0x63, 0xa9, 0xcd, 0xd6, 0xb9, 0xf5, 0x8c, 0x9e, 0x4c, 0xcc, 0x1c, 0xf7, 0xe9, 0x0a, 0x03, 0x24, 0x08), 0x2d);
    Next(C(0x05, 0xf1, 0xf5, 0x34, 0x4a, 0x63, 0xa9, 0xcd, 0xd6, 0xb9, 0xf5, 0x8c, 0x9e, 0x4c, 0xcc, 0x1c, 0xf7, 0xe9, 0x0a, 0x03, 0x24, 0x08), 0x2d, 43,
         C(0x17, 0x80, 0xd8, 0xf5, 0x09, 0xbe, 0x26, 0x41, 0xba, 0xf0, 0x3a, 0x2d, 0x48, 0xab, 0x80, 0xa3, 0x68, 0x10, 0x6f, 0x64, 0x5f, 0x6b), 0x5b);
  }

  lemma From48()
    ensures Rounds(Listed(C(0x17, 0x80, 0xd8, 0xf5, 0x09, 0xbe, 0x26, 0x41, 0xba, 0xf0, 0x3a, 0x2d, 0x48, 0xab, 0x80, 0xa3, 0x68, 0x10, 0x6f, 0x64, 0x5f, 0x6b)), 0x5b, 42) ==
            Rounds(Listed(C(0x95, 0x6d, 0x71, 0x29, 0xf1, 0x54, 0xad, 0x6c, 0x02, 0x24, 0x03, 0xd2, 0xc0, 0xf4, 0xeb, 0x59, 0x11, 0xea, 0xb1, 0xd5, 0x86, 0x74)), 0x76, 36)
  {
    hide Rounds, Listed;
    Next(C(0x17, 0x80, 0xd8, 0xf5, 0x09, 0xbe, 0x26, 0x41, 0xba, 0xf0, 0x3a, 0x2d, 0x48, 0xab, 0x80, 0xa3, 0x68, 0x10, 0x6f, 0x64, 0x5f, 0x6b), 0x5b, 42,
         C(0x59, 0x6c, 0x82, 0x25, 0x09, 0xee, 0x79, 0xca, 0x38, 0x53, 0x15, 0xbc, 0x5a, 0x4e, 0x35, 0xbf, 0x5d, 0x32, 0x56, 0x8d, 0xc9, 0x40), 0x37);
    Next(C(0x59, 0x6c, 0x82, 0x25, 0x09, 0xee, 0x79, 0xca, 0x38, 0x53, 0x15, 0xbc, 0x5a, 0x4e, 0x35, 0xbf, 0x5d, 0x32, 0x56, 0x8d, 0xc9, 0x40), 0x37, 41,
         C(0xf5, 0xac, 0xf9, 0x96, 0xa6, 0x16, 0xfb, 0x13, 0xc0, 0x44, 0x18, 0x2a, 0x22, 0xa1, 0xc0, 0xd1, 0x40, 0x39, 0x0f, 0x16, 0x50, 0xf4), 0x6f);
    Next(C(0xf5, 0xac, 0xf9, 0x96, 0xa6, 0x16, 0xfb, 0x13, 0xc0, 0x44, 0x18, 0x2a, 0x22, 0xa1, 0xc0, 0xd1, 0x40, 0x39, 0x0f, 0x16, 0x50, 0xf4), 0x6f, 40,
         C(0x04, 0x98, 0xb2, 0x67, 0x80, 0x26, 0x0b, 0xd2, 0x39, 0x71, 0xd3, 0x60, 0xbd, 0x31, 0xd4, 0xf1, 0xf9, 0xa9, 0x38, 0xfe, 0x5f, 0xda), 0x5e);
    Next(C(0x04, 0x98, 0xb2, 0x67, 0x80, 0x26, 0x0b, 0xd2, 0x39, 0x71, 0xd3, 0x60, 0xbd, 0x31, 0xd4, 0xf1, 0xf9, 0xa9, 0x38, 0xfe, 0x5f, 0xda), 0x5e, 39,
         C(0x76, 0x5a, 0x0c, 0x46, 0x50, 0xc2, 0xb5, 0x96, 0x04, 0x79, 0x5d, 0xe4, 0xb7, 0xec, 0xe7, 0x92, 0x95, 0x95, 0xde, 0x56, 0xd6, 0xc0), 0x3d);
    Next(C(0x76, 0x5a, 0x0c, 0x46, 0x50, 0xc2, 0xb5, 0x96, 0x04, 0x79, 0x5d, 0xe4, 0xb7, 0xec, 0xe7, 0x92, 0x95, 0x95, 0xde, 0x56, 0xd6, 0xc0), 0x3d, 38,
         C(0x19, 0x3e, 0xa8, 0x7f, 0x95, 0x2c, 0x5a, 0xf8, 0x9c, 0xaf, 0x81, 0x61, 0x61, 0x1a, 0x13, 0x60, 0x4b, 0xd3, 0xe8, 0x51, 0xad, 0xe2), 0x7b);
    Next(C(0x19, 0x3e, 0xa8, 0x7f, 0x95, 0x2c, 0x5a, 0xf8, 0x9c, 0xaf, 0x81, 0x61, 0x61, 0x1a, 0x13, 0x60, 0x4b, 0xd3, 0xe8, 0x51, 0xad, 0xe2), 0x7b, 37,
         C(0x95, 0x6d, 0x71, 0x29, 0xf1, 0x54, 0xad, 0x6c, 0x02, 0x24, 0x03, 0xd2, 0xc0, 0xf4, 0xeb, 0x59, 0x11, 0xea, 0xb1, 0xd5, 0x86, 0x74), 0x76);
  }

  lemma From54()
    ensures Rounds(Listed(C(0x95, 0x6d, 0x71, 0x29, 0xf1, 0x54, 0xad, 0x6c, 0x02, 0x24, 0x03, 0xd2, 0xc0, 0xf4, 0xeb, 0x59, 0x11, 0xea, 0xb1, 0xd5, 0x86, 0x74)), 0x76, 36) ==
            Rounds(Listed(C(0x90, 0x92, 0x11, 0xd1, 0x7f, 0x43, 0x94, 0xec, 0x60, 0xd0, 0xe4, 0xae, 0x67, 0x37, 0x67, 0x54, 0x6f, 0x4d, 0x39, 0x79, 0x09, 0xca)), 0x0d, 30)
  {
    hide Rounds, Listed;
    Next(C(0x95, 0x6d, 0x71, 0x29, 0xf1, 0x54, 0xad, 0x6c, 0x02, 0x24, 0x03, 0xd2, 0xc0, 0xf4, 0xeb, 0x59, 0x11, 0xea, 0xb1, 0xd5, 0x86, 0x74), 0x76, 36,
         C(0xb2, 0x49, 0x49, 0xb2, 0x7b, 0x2a, 0x6e, 0xf0, 0xd6, 0x86, 0x20, 0x3c, 0x93, 0xa2, 0x19, 0xb3, 0x4b, 0x1f, 0xb7, 0x3e, 0x74, 0xc9), 0x6c);
    Next(C(0xb2, 0x49, 0x49, 0xb2, 0x7b, 0x2a, 0x6e, 0xf0, 0xd6, 0x86, 0x20, 0x3c, 0x93, 0xa2, 0x19, 0xb3, 0x4b, 0x1f, 0xb7, 0x3e, 0x74, 0xc9), 0x6c, 35,
         C(0xc1, 0x1b, 0x68, 0xa4, 0x79, 0xd2, 0xa7, 0x8d, 0x63, 0x61, 0xf5, 0x82, 0xe3, 0x1f, 0xa0, 0x3d, 0x6e, 0xe5, 0x24, 0xe7, 0x83, 0x21), 0x58);
    Next(C(0xc1, 0x1b, 0x68, 0xa4, 0x79, 0xd2, 0xa7, 0x8d, 0x63, 0x61, 0xf5, 0x82, 0xe3, 0x1f, 0xa0, 0x3d, 0x6e, 0xe5, 0x24, 0xe7, 0x83, 0x21), 0x58, 34,
         C(0x1c, 0x96, 0xd4, 0x0a, 0xed, 0x36, 0x75, 0x09, 0x6e, 0x91, 0x2f, 0x3c, 0xda, 0xae, 0x5c, 0x42, 0xb6, 0xf8, 0x47, 0x84, 0x07, 0x06), 0x31);
    Next(C(0x1c, 0x96, 0xd4, 0x0a, 0xed, 0x36, 0x75, 0x09, 0x6e, 0x91, 0x2f, 0x3c, 0xda, 0xae, 0x5c, 0x42, 0xb6, 0xf8, 0x47, 0x84, 0x07, 0x06), 0x31, 33,
         C(0x02, 0x32, 0x65, 0x74, 0x96, 0xa9, 0x29, 0x9e, 0x43, 0xcc, 0xbf, 0xa5, 0xa5, 0x16, 0x02, 0x9f, 0xbb, 0x1e, 0xce, 0xb6, 0x05, 0x71), 0x63);
    Next(C(0x02, 0x32, 0x65, 0x74, 0x96, 0xa9, 0x29, 0x9e, 0x43, 0xcc, 0xbf, 0xa5, 0xa5, 0x16, 0x02, 0x9f, 0xbb, 0x1e, 0xce, 0xb6, 0x05, 0x71), 0x63, 32,
         C(0x95, 0x60, 0x6c, 0x19, 0xbf, 0x4d, 0x6c, 0x2f, 0x01, 0x4f, 0x61, 0xa3, 0x01, 0x30, 0x6c, 0xcb, 0x5e, 0xe8, 0xcb, 0xa8, 0x8b, 0x62), 0x46);
    Next(C(0x95, 0x60, 0x6c, 0x19, 0xbf, 0x4d, 0x6c, 0x2f, 0x01, 0x4f, 0x61, 0xa3, 0x01, 0x30, 0x6c, 0xcb, 0x5e, 0xe8, 0xcb, 0xa8, 0x8b, 0x62), 0x46, 31,
         C(0x90, 0x92, 0x11, 0xd1, 0x7f, 0x43, 0x94, 0xec, 0x60, 0xd0, 0xe4, 0xae, 0x67, 0x37, 0x67, 0x54, 0x6f, 0x4d, 0x39, 0x79, 0x09, 0xca), 0x0d);
  }

  lemma From60()
    ensures Rounds(Listed(C(0x90, 0x92, 0x11, 0xd1, 0x7f, 0x43, 0x94, 0xec, 0x60, 0xd0, 0xe4, 0xae, 0x67, 0x37, 0x67, 0x54, 0x6f, 0x4d, 0x39, 0x79, 0x09, 0xca)), 0x0d, 30) ==
            Rounds(Listed(C(0xe0, 0x87, 0x47, 0x1f, 0x0d, 0x38, 0x26, 0xfb, 0x7b, 0x5e, 0x2c, 0x14, 0x76, 0xe0, 0xd4, 0x7d, 0x0c, 0xa4, 0xe1, 0xcb, 0x8f, 0xdb)), 0x4b, 24)
  {
    hide Rounds, Listed;
    Next(C(0x90, 0x92, 0x11, 0xd1, 0x7f, 0x43, 0x94, 0xec, 0x60, 0xd0, 0xe4, 0xae, 0x67, 0x37, 0x67, 0x54, 0x6f, 0x4d, 0x39, 0x79, 0x09, 0xca), 0x0d, 30,
         C(0x74, 0xc2, 0x60, 0x95, 0x80, 0xe8, 0xb0, 0x5b, 0x57, 0x95, 0xbd, 0xf1, 0x03, 0x0f, 0x37, 0x87, 0xfa, 0x2f, 0xd6, 0x58, 0x41, 0xfd), 0x1a);
    Next(C(0x74, 0xc2, 0x60, 0x95, 0x80, 0xe8, 0xb0, 0x5b, 0x57, 0x95, 0xbd, 0xf1, 0x03, 0x0f, 0x37, 0x87, 0xfa, 0x2f, 0xd6, 0x58, 0x41, 0xfd), 0x1a, 29,
         C(0x4d, 0xee, 0x67, 0xd0, 0xc8, 0x55, 0xf9, 0x91, 0xe8, 0xed, 0x24, 0x32, 0x77, 0xf1, 0xde, 0x76, 0xc1, 0x19, 0x91, 0xa5, 0x95, 0x92), 0x34);
    Next(C(0x4d, 0xee, 0x67, 0xd0, 0xc8, 0x55, 0xf9, 0x91, 0xe8, 0xed, 0x24, 0x32, 0x77, 0xf1, 0xde, 0x76, 0xc1, 0x19, 0x91, 0xa5, 0x95, 0x92), 0x34, 28,
         C(0x1e, 0x4f, 0x6b, 0x97, 0x5b, 0xfd, 0x15, 0xbb, 0xb7, 0x49, 0x62, 0xf2, 0x61, 0x05, 0xef, 0x19, 0x38, 0x2d, 0x4d, 0x76, 0xfa, 0x2b), 0x69);
    Next(C(0x1e, 0x4f, 0x6b, 0x97, 0x5b, 0xfd, 0x15, 0xbb, 0xb7, 0x49, 0x62, 0xf2, 0x61, 0x05, 0xef, 0x19, 0x38, 0x2d, 0x4d, 0x76, 0xfa, 0x2b), 0x69, 27,
         C(0x53, 0xf3, 0x53, 0xa5, 0x89, 0xf8, 0x8c, 0xd0, 0x8d, 0x97, 0x2a, 0x77, 0xed, 0xa3, 0x9b, 0xd5, 0x3e, 0x4c, 0x52, 0x95, 0xcc, 0x59), 0x52);
    Next(C(0x53, 0xf3, 0x53, 0xa5, 0x89, 0xf8, 0x8c, 0xd0, 0x8d, 0x97, 0x2a, 0x77, 0xed, 0xa3, 0x9b, 0xd5, 0x3e, 0x4c, 0x52, 0x95, 0xcc, 0x59), 0x52, 26,
         C(0x61, 0x36, 0xe6, 0x52, 0x75, 0xab, 0xf0, 0xe6, 0x2e, 0x92, 0x09, 0x0b, 0xee, 0xc7, 0x91, 0x00, 0x38, 0x18, 0xdd, 0x9f, 0x4a, 0xb9), 0x25);
    Next(C(0x61, 0x36, 0xe6, 0x52, 0x75, 0xab, 0xf0, 0xe6, 0x2e, 0x92, 0x09, 0x0b, 0xee, 0xc7, 0x91, 0x00, 0x38, 0x18, 0xdd, 0x9f, 0x4a, 0xb9), 0x25, 25,
         C(0xe0, 0x87, 0x47, 0x1f, 0x0d, 0x38, 0x26, 0xfb, 0x7b, 0x5e, 0x2c, 0x14, 0x76, 0xe0, 0xd4, 0x7d, 0x0c, 0xa4, 0xe1, 0xcb, 0x8f, 0xdb), 0x4b);
  }

  lemma From66()
    ensures Rounds(Listed(C(0xe0, 0x87, 0x47, 0x1f, 0x0d, 0x38, 0x26, 0xfb, 0x7b, 0x5e, 0x2c, 0x14, 0x76, 0xe0, 0xd4, 0x7d, 0x0c, 0xa4, 0xe1, 0xcb, 0x8f, 0xdb)), 0x4b, 24) ==
            Rounds(Listed(C(0x14, 0xa9, 0x53, 0x6e, 0x08, 0x83, 0xc8, 0xa9, 0x49, 0xc0, 0xe2, 0x96, 0x55, 0x89, 0x48, 0x00, 0x35, 0x9d, 0x13, 0xfa, 0xaa, 0xfd)), 0x6e, 18)
  {
    hide Rounds, Listed;
    Next(C(0xe0, 0x87, 0x47, 0x1f, 0x0d, 0x38, 0x26, 0xfb, 0x7b, 0x5e, 0x2c, 0x14, 0x76, 0xe0, 0xd4, 0x7d, 0x0c, 0xa4, 0xe1, 0xcb, 0x8f, 0xdb), 0x4b, 24,
         C(0x9d, 0x64, 0xbf, 0x8a, 0xf1, 0xc2, 0x67, 0x6a, 0xe6, 0x69, 0xf2, 0xdd, 0xd7, 0x83, 0xe7, 0x52, 0x6b, 0x39, 0x22, 0x6b, 0xbe, 0xc9), 0x17);
    Next(C(0x9d, 0x64, 0xbf, 0x8a, 0xf1, 0xc2, 0x67, 0x6a, 0xe6, 0x69, 0xf2, 0xdd, 0xd7, 0x83, 0xe7, 0x52, 0x6b, 0x39, 0x22, 0x6b, 0xbe, 0xc9), 0x17, 23,
         C(0xa2, 0x1d, 0x12, 0xf9, 0x71, 0x6f, 0x69, 0x61, 0x93, 0x47, 0x93, 0xba, 0xb3, 0xe9, 0x1b, 0xc3, 0x16, 0xd4, 0x45, 0x3d, 0x45, 0xc3), 0x2e);
    Next(C(0xa2, 0x1d, 0x12, 0xf9, 0x71, 0x6f, 0x69, 0x61, 0x93, 0x47, 0x93, 0xba, 0xb3, 0xe9, 0x1b, 0xc3, 0x16, 0xd4, 0x45, 0x3d, 0x45, 0xc3), 0x2e, 22,
         C(0x3b, 0x43, 0x84, 0xba, 0x12, 0x2d, 0x6d, 0xe1, 0xc2, 0x40, 0x62, 0xae, 0xef, 0x84, 0x32, 0x4b, 0xdc, 0x37, 0x65, 0x46, 0xaa, 0x44), 0x5d);
    Next(C(0x3b, 0x43, 0x84, 0xba, 0x12, 0x2d, 0x6d, 0xe1, 0xc2, 0x40, 0x62, 0xae, 0xef, 0x84, 0x32, 0x4b, 0xdc, 0x37, 0x65, 0x46, 0xaa, 0x44), 0x5d, 21,
         C(0xa0, 0xcb, 0x53, 0x5a, 0x15, 0x84, 0x93, 0xd8, 0xf5, 0x49, 0xc8, 0xa3, 0x76, 0x24, 0x49, 0x66, 0x08, 0xf4, 0x75, 0x09, 0x71, 0x30), 0x3b);
    Next(C(0xa0, 0xcb, 0x53, 0x5a, 0x15, 0x84, 0x93, 0xd8, 0xf5, 0x49, 0xc8, 0xa3, 0x76, 0x24, 0x49, 0x66, 0x08, 0xf4, 0x75, 0x09, 0x71, 0x30), 0x3b, 20,
         C(0xad, 0x4b, 0x31, 0x0a, 0x31, 0x2f, 0xc0, 0xe6, 0xe1, 0xf3, 0xae, 0x05, 0xca, 0x12, 0xc3, 0xab, 0xa3, 0x24, 0x4a, 0xaa, 0x21, 0x7e), 0x77);
    Next(C(0xad, 0x4b, 0x31, 0x0a, 0x31, 0x2f, 0xc0, 0xe6, 0xe1, 0xf3, 0xae, 0x05, 0xca, 0x12, 0xc3, 0xab, 0xa3, 0x24, 0x4a, 0xaa, 0x21, 0x7e), 0x77, 19,
         C(0x14, 0xa9, 0x53, 0x6e, 0x08, 0x83, 0xc8, 0xa9, 0x49, 0xc0, 0xe2, 0x96, 0x55, 0x89, 0x48, 0x00, 0x35, 0x9d, 0x13, 0xfa, 0xaa, 0xfd), 0x6e);
  }

  lemma From72()
    ensures Rounds(Listed(C(0x14, 0xa9, 0x53, 0x6e, 0x08, 0x83, 0xc8, 0xa9, 0x49, 0xc0, 0xe2, 0x96, 0x55, 0x89, 0x48, 0x00, 0x35, 0x9d, 0x13, 0xfa, 0xaa, 0xfd)), 0x6e, 18) ==
            Rounds(Listed(C(0x55, 0xd8, 0x96, 0x8f, 0x12, 0x15, 0xd7, 0xab, 0xc5, 0x2a, 0x9b, 0xe3, 0x3b, 0x77, 0x9a, 0x83, 0x8a, 0x80, 0x62, 0xf5, 0x73, 0x8c)), 0x19, 12)
  {
    hide Rounds, Listed;
    Next(C(0x14, 0xa9, 0x53, 0x6e, 0x08, 0x83, 0xc8, 0xa9, 0x49, 0xc0, 0xe2, 0x96, 0x55, 0x89, 0x48, 0x00, 0x35, 0x9d, 0x13, 0xfa, 0xaa, 0xfd), 0x6e, 18,
         C(0x62, 0x39, 0x38, 0x1b, 0x21, 0x6c, 0xb4, 0x75, 0xcb, 0x8f, 0x88, 0x82, 0x1b, 0x44, 0xd8, 0xa4, 0xfc, 0x20, 0xde, 0x49, 0xcc, 0x36), 0x5c);
    Next(C(0x62, 0x39, 0x38, 0x1b, 0x21, 0x6c, 0xb4, 0x75, 0xcb, 0x8f, 0x88, 0x82, 0x1b, 0x44, 0xd8, 0xa4, 0xfc, 0x20, 0xde, 0x49, 0xcc, 0x36), 0x5c, 17,
         C(0xd1, 0xe7, 0xfb, 0x13, 0x19, 0x57, 0x21, 0xc9, 0xcf, 0xe5, 0x8d, 0xd0, 0xa9, 0xbd, 0x33, 0x26, 0x48, 0x78, 0x28, 0x24, 0xda, 0xf6), 0x39);
    Next(C(0xd1, 0xe7, 0xfb, 0x13, 0x19, 0x57, 0x21, 0xc9, 0xcf, 0xe5, 0x8d, 0xd0, 0xa9, 0xbd, 0x33, 0x26, 0x48, 0x78, 0x28, 0x24, 0xda, 0xf6), 0x39, 16,
         C(0x9f, 0xbe, 0x2e, 0x88, 0xbd, 0xf0, 0x52, 0x96, 0x16, 0xf8, 0x0f, 0xb5, 0x16, 0xf1, 0x4c, 0x1d, 0x4a, 0x78, 0x2f, 0x7d, 0x88, 0x7a), 0x73);
    Next(C(0x9f, 0xbe, 0x2e, 0x88, 0xbd, 0xf0, 0x52, 0x96, 0x16, 0xf8, 0x0f, 0xb5, 0x16, 0xf1, 0x4c, 0x1d, 0x4a, 0x78, 0x2f, 0x7d, 0x88, 0x7a), 0x73, 15,
         C(0xff, 0x32, 0xc6, 0x96, 0xac, 0x6b, 0xcf, 0xc9, 0x83, 0xe2, 0x7b, 0xc8, 0x4f, 0xbf, 0xcf, 0xdc, 0x1b, 0x52, 0x29, 0x62, 0x9d, 0x0e), 0x66);
    Next(C(0xff, 0x32, 0xc6, 0x96, 0xac, 0x6b, 0xcf, 0xc9, 0x83, 0xe2, 0x7b, 0xc8, 0x4f, 0xbf, 0xcf, 0xdc, 0x1b, 0x52, 0x29, 0x62, 0x9d, 0x0e), 0x66, 14,
         C(0x24, 0xa5, 0xfe, 0x68, 0x6f, 0x74, 0x08, 0xe5, 0x76, 0x41, 0x67, 0x50, 0x1c, 0x72, 0x9d, 0x83, 0x7d, 0x3a, 0x4e, 0x0a, 0x6e, 0x37), 0x4c);
    Next(C(0x24, 0xa5, 0xfe, 0x68, 0x6f, 0x74, 0x08, 0xe5, 0x76, 0x41, 0x67, 0x50, 0x1c, 0x72, 0x9d, 0x83, 0x7d, 0x3a, 0x4e, 0x0a, 0x6e, 0x37), 0x4c, 13,
         C(0x55, 0xd8, 0x96, 0x8f, 0x12, 0x15, 0xd7, 0xab, 0xc5, 0x2a, 0x9b, 0xe3, 0x3b, 0x77, 0x9a, 0x83, 0x8a, 0x80, 0x62, 0xf5, 0x73, 0x8c), 0x19);
  }

  lemma From78()
    ensures Rounds(Listed(C(0x55, 0xd8, 0x96, 0x8f, 0x12, 0x15, 0xd7, 0xab, 0xc5, 0x2a, 0x9b, 0xe3, 0x3b, 0x77, 0x9a, 0x83, 0x8a, 0x80, 0x62, 0xf5, 0x73, 0x8c)), 0x19, 12) ==
            Rounds(Listed(C(0x5a, 0x9e, 0x48, 0x9e, 0xf9, 0xe1, 0xd6, 0xc0, 0x59, 0x37, 0x1a, 0x4b, 0x54, 0x71, 0x9d, 0x9e, 0x27, 0x56, 0x07, 0x43, 0x8d, 0xb2)), 0x55, 6)
  {
    hide Rounds, Listed;
    Next(C(0x55, 0xd8, 0x96, 0x8f, 0x12, 0x15, 0xd7, 0xab, 0xc5, 0x2a, 0x9b, 0xe3, 0x3b, 0x77, 0x9a, 0x83, 0x8a, 0x80, 0x62, 0xf5, 0x73, 0x8c), 0x19, 12,
         C(0x85, 0x5f, 0x9b, 0x8d, 0x5a, 0x6a, 0x1e, 0x81, 0xca, 0xea, 0x69, 0xdc, 0x7a, 0x10, 0x8d, 0xae, 0x9a, 0xb2, 0xeb, 0xc2, 0x53, 0xa1), 0x32);
    Next(C(0x85, 0x5f, 0x9b, 0x8d, 0x5a, 0x6a, 0x1e, 0x81, 0xca, 0xea, 0x69, 0xdc, 0x7a, 0x10, 0x8d, 0xae, 0x9a, 0xb2, 0xeb, 0xc2, 0x53, 0xa1), 0x32, 11,
         C(0x9b, 0xf2, 0x4a, 0x6a, 0xfc, 0x5a, 0x0a, 0x89, 0x61, 0x66, 0x86, 0xd7, 0xe8, 0xa0, 0x3e, 0x18, 0x14, 0x56, 0x76, 0xfd, 0x79, 0x4c), 0x65);
    Next(C(0x9b, 0xf2, 0x4a, 0x6a, 0xfc, 0x5a, 0x0a, 0x89, 0x61, 0x66, 0x86, 0xd7, 0xe8, 0xa0, 0x3e, 0x18, 0x14, 0x56, 0x76, 0xfd, 0x79, 0x4c), 0x65, 10,
         C(0x05, 0x89, 0x61, 0xd3, 0x2a, 0xfa, 0x22, 0x0e, 0x76, 0x15, 0xba, 0x8a, 0xa2, 0xff, 0xc5, 0xf6, 0x42, 0x55, 0x17, 0xcc, 0x28, 0x76), 0x4a);
    Next(C(0x05, 0x89, 0x61, 0xd3, 0x2a, 0xfa, 0x22, 0x0e, 0x76, 0x15, 0xba, 0x8a, 0xa2, 0xff, 0xc5, 0xf6, 0x42, 0x55, 0x17, 0xcc, 0x28, 0x76), 0x4a, 9,
         C(0x18, 0x72, 0xae, 0x31, 0xfd, 0xfb, 0xa0, 0x2f, 0xd8, 0x38, 0xf1, 0xb9, 0x88, 0xab, 0xcc, 0x30, 0x41, 0x79, 0xab, 0x35, 0x12, 0xaf), 0x15);
    Next(C(0x18, 0x72, 0xae, 0x31, 0xfd, 0xfb, 0xa0, 0x2f, 0xd8, 0x38, 0xf1, 0xb9, 0x88, 0xab, 0xcc, 0x30, 0x41, 0x79, 0xab, 0x35, 0x12, 0xaf), 0x15, 8,
         C(0x5c, 0x84, 0x95, 0x37, 0x59, 0xe7, 0xa1, 0x5d, 0x36, 0xe4, 0xd0, 0x4b, 0x5f, 0xb7, 0x47, 0x19, 0xfe, 0x16, 0x2b, 0x85, 0xd7, 0xf2), 0x2a);
    Next(C(0x5c, 0x84, 0x95, 0x37, 0x59, 0xe7, 0xa1, 0x5d, 0x36, 0xe4, 0xd0, 0x4b, 0x5f, 0xb7, 0x47, 0x19, 0xfe, 0x16, 0x2b, 0x85, 0xd7, 0xf2), 0x2a, 7,
         C(0x5a, 0x9e, 0x48, 0x9e, 0xf9, 0xe1, 0xd6, 0xc0, 0x59, 0x37, 0x1a, 0x4b, 0x54, 0x71, 0x9d, 0x9e, 0x27, 0x56, 0x07, 0x43, 0x8d, 0xb2), 0x55);
  }

  lemma From84()
    ensures Rounds(Listed(C(0x5a, 0x9e, 0x48, 0x9e, 0xf9, 0xe1, 0xd6, 0xc0, 0x59, 0x37, 0x1a, 0x4b, 0x54, 0x71, 0x9d, 0x9e, 0x27, 0x56, 0x07, 0x43, 0x8d, 0xb2)), 0x55, 6) ==
            Rounds(Listed(C(0xbe, 0x20, 0x90, 0x03, 0x0a, 0x03, 0x7c, 0xf7, 0x95, 0x50, 0xdd, 0x45, 0xb5, 0x95, 0xa1, 0xe5, 0x73, 0x65, 0x68, 0xc7, 0x77, 0xce)), 0x7f, 0)
  {
    hide Rounds, Listed;
    Next(C(0x5a, 0x9e, 0x48, 0x9e, 0xf9, 0xe1, 0xd6, 0xc0, 0x59, 0x37, 0x1a, 0x4b, 0x54, 0x71, 0x9d, 0x9e, 0x27, 0x56, 0x07, 0x43, 0x8d, 0xb2), 0x55, 6,
         C(0x54, 0x8c, 0x66, 0x4e, 0x1b, 0xfe, 0xbf, 0x54, 0x98, 0x3e, 0x6b, 0x13, 0x76, 0x64, 0x1c, 0x35, 0xaf, 0x58, 0x5e, 0xc3, 0x3b, 0x93), 0x2b);
    Next(C(0x54, 0x8c, 0x66, 0x4e, 0x1b, 0xfe, 0xbf, 0x54, 0x98, 0x3e, 0x6b, 0x13, 0x76, 0x64, 0x1c, 0x35, 0xaf, 0x58, 0x5e, 0xc3, 0x3b, 0x93), 0x2b, 5,
         C(0x4e, 0xa7, 0x95, 0x72, 0xbc, 0xb5, 0xcc, 0x75, 0x60, 0x50, 0xc1, 0x3b, 0x3b, 0xb1, 0x2b, 0x05, 0x65, 0x20, 0x20, 0x28, 0x23, 0x48), 0x57);
    Next(C(0x4e, 0xa7, 0x95, 0x72, 0xbc, 0xb5, 0xcc, 0x75, 0x60, 0x50, 0xc1, 0x3b, 0x3b, 0xb1, 0x2b, 0x05, 0x65, 0x20, 0x20, 0x28, 0x23, 0x48), 0x57, 4,
         C(0xd6, 0xff, 0x78, 0x7d, 0xe9, 0x56, 0x0e, 0x58, 0x00, 0xca, 0x6f, 0x86, 0x8a, 0x57, 0x9d, 0x56, 0xf0, 0x1e, 0x5b, 0x43, 0xca, 0xeb), 0x2f);
    Next(C(0xd6, 0xff, 0x78, 0x7d, 0xe9, 0x56, 0x0e, 0x58, 0x00, 0xca, 0x6f, 0x86, 0x8a, 0x57, 0x9d, 0x56, 0xf0, 0x1e, 0x5b, 0x43, 0xca, 0xeb), 0x2f, 3,
         C(0xb0, 0xda, 0x88, 0x8e, 0x3c, 0xfa, 0x3b, 0x37, 0x69, 0x72, 0x48, 0xfe, 0x64, 0xf3, 0x56, 0x1b, 0x1c, 0x1e, 0xf2, 0x50, 0x93, 0xb0), 0x5f);
    Next(C(0xb0, 0xda, 0x88, 0x8e, 0x3c, 0xfa, 0x3b, 0x37, 0x69, 0x72, 0x48, 0xfe, 0x64, 0xf3, 0x56, 0x1b, 0x1c, 0x1e, 0xf2, 0x50, 0x93, 0xb0), 0x5f, 2,
         C(0xf2, 0x51, 0x5c, 0xe0, 0x9f, 0x30, 0x8f, 0xd4, 0x9f, 0x40, 0xa7, 0xb9, 0x58, 0x9a, 0xda, 0x6a, 0xc0, 0x50, 0xd4, 0x00, 0xb8, 0x65), 0x3f);
    Next(C(0xf2, 0x51, 0x5c, 0xe0, 0x9f, 0x30, 0x8f, 0xd4, 0x9f, 0x40, 0xa7, 0xb9, 0x58, 0x9a, 0xda, 0x6a, 0xc0, 0x50, 0xd4, 0x00, 0xb8, 0x65), 0x3f, 1,
         C(0xbe, 0x20, 0x90, 0x03, 0x0a, 0x03, 0x7c, 0xf7, 0x95, 0x50, 0xdd, 0x45, 0xb5, 0x95, 0xa1, 0xe5, 0x73, 0x65, 0x68, 0xc7, 0x77, 0xce), 0x7f);
  }

  // The permutation on the padding block of the empty message.
  lemma PermutedPadding()
    ensures Permute(Listed(C(0x80, 0x00, 0x00, 0x00, 0x00, 0x00, 0x00, 0x00, 0x00, 0x00, 0x00, 0x00, 0x00, 0x00, 0x00, 0x00, 0x00, 0x00, 0x00, 0x00, 0x00, 0x00))) ==
            Listed(C(0xbe, 0x20, 0x90, 0x03, 0x0a, 0x03, 0x7c, 0xf7, 0x95, 0x50, 0xdd, 0x45, 0xb5, 0x95, 0xa1, 0xe5, 0x73, 0x65, 0x68, 0xc7, 0x77, 0xce))
  {
    hide Rounds, Listed;
    From0(); From6(); From12(); From18(); From24(); From30(); From36(); From42(); From48(); From54(); From60(); From66(); From72(); From78(); From84();
    RoundsStep(Listed(C(0xbe, 0x20, 0x90, 0x03, 0x0a, 0x03, 0x7c, 0xf7, 0x95, 0x50, 0xdd, 0x45, 0xb5, 0x95, 0xa1, 0xe5, 0x73, 0x65, 0x68, 0xc7, 0x77, 0xce)), 0x7f, 0);
  }

  // The first two bytes of the digest of the empty message.
  lemma EmptyDigest()
    ensures AbsorbSqueeze([], 2) == [0xbe, 0x20]
  {
    hide Permute;
    PermutedPadding();
    PaddingState();
  }

  lemma PaddingState()
    ensures Absorb(ZeroState(), Padded([])) == Permute(Listed(C(0x80, 0x00, 0x00, 0x00, 0x00, 0x00, 0x00, 0x00, 0x00, 0x00, 0x00, 0x00, 0x00, 0x00, 0x00, 0x00, 0x00, 0x00, 0x00, 0x00, 0x00, 0x00)))
  {
    hide Permute;
    var s := AddRate(ZeroState(), 0x80, 0x00);
    assert s == Listed(C(0x80, 0x00, 0x00, 0x00, 0x00, 0x00, 0x00, 0x00, 0x00, 0x00, 0x00, 0x00, 0x00, 0x00, 0x00, 0x00, 0x00, 0x00, 0x00, 0x00, 0x00, 0x00));
    assert Padded([])[RATE..] == [];
  }
}
