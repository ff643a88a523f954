// The Ascon permutation on five 64-bit words, and its inverse.
module AsconPermutation {
  import opened Wrappers

  datatype Word = Word(v: bv64)

  function XorBits(a: bv64, b: bv64): bv64 { a ^ b }

  function AndBits(a: bv64, b: bv64): bv64 { a & b }

  function NotBits(a: bv64): bv64 { !a }

  // Rotation to the right, by the two shifts of the source.
  function RotrBits(v: bv64, n: nat): bv64
    requires n <= 64
  {
    (v >> n) | (v << (64 - n))
  }

  function Xor(a: Word, b: Word): Word { Word(XorBits(a.v, b.v)) }

  function And(a: Word, b: Word): Word { Word(AndBits(a.v, b.v)) }

  function Not(a: Word): Word { Word(NotBits(a.v)) }

  function Rotr(a: Word, n: nat): Word
    requires n <= 64
  {
    Word(RotrBits(a.v, n))
  }

  lemma RawXorTwice(a: bv64, b: bv64) ensures XorBits(XorBits(a, b), b) == a {}

  lemma RawNotTwice(a: bv64) ensures NotBits(NotBits(a)) == a {}

  lemma XorTwice(a: Word, b: Word)
    ensures Xor(Xor(a, b), b) == a
  {
    hide XorBits;
    RawXorTwice(a.v, b.v);
  }

  lemma NotTwice(a: Word)
    ensures Not(Not(a)) == a
  {
    hide NotBits;
    RawNotTwice(a.v);
  }

  datatype State = State(x0: Word, x1: Word, x2: Word, x3: Word, x4: Word)

  // ---------- rotations ----------

  // The same rotation as n single-bit ones, for any n.
  function Rot(a: Word, n: nat): Word { if n == 0 then a else Rotr(Rot(a, n - 1), 1) }

  lemma {:induction false} RotAdd(a: Word, m: nat, n: nat)
    ensures Rot(Rot(a, m), n) == Rot(a, m + n)
  {
    hide Rotr;
    if n > 0 { RotAdd(a, m, n - 1); }
  }

  lemma RawRotXor(v: bv64, w: bv64)
    ensures RotrBits(XorBits(v, w), 1) == XorBits(RotrBits(v, 1), RotrBits(w, 1))
  {}

  lemma RotrXor(a: Word, b: Word)
    ensures Rotr(Xor(a, b), 1) == Xor(Rotr(a, 1), Rotr(b, 1))
  {
    hide XorBits, RotrBits;
    RawRotXor(a.v, b.v);
  }

  lemma {:induction false} RotXor(a: Word, b: Word, n: nat)
    ensures Rot(Xor(a, b), n) == Xor(Rot(a, n), Rot(b, n))
  {
    hide Rotr, Xor;
    if n > 0 { RotXor(a, b, n - 1); RotrXor(Rot(a, n - 1), Rot(b, n - 1)); }
  }

  // Raw facts: doubling a rotation, and the rotations the diffusion layer uses, from powers of two.
  lemma Raw2(v: bv64) ensures RotrBits(v, 2) == RotrBits(RotrBits(v, 1), 1) {}
  lemma Raw4(v: bv64) ensures RotrBits(v, 4) == RotrBits(RotrBits(v, 2), 2) {}
  lemma Raw8(v: bv64) ensures RotrBits(v, 8) == RotrBits(RotrBits(v, 4), 4) {}
  lemma Raw16(v: bv64) ensures RotrBits(v, 16) == RotrBits(RotrBits(v, 8), 8) {}
  lemma Raw32(v: bv64) ensures RotrBits(v, 32) == RotrBits(RotrBits(v, 16), 16) {}
  lemma Raw64(v: bv64) ensures RotrBits(RotrBits(v, 32), 32) == v {}

  lemma RotBy1(a: Word) ensures Rot(a, 1) == Rotr(a, 1) { hide Rotr; assert Rot(a, 0) == a; }
  lemma RotBy2(a: Word)
    ensures Rot(a, 2) == Rotr(a, 2)
  {
    hide Rot, RotrBits;
    Raw2(a.v);
    RotBy1(a);
    RotBy1(Rotr(a, 1));
    RotAdd(a, 1, 1);
  }

  lemma RotBy4(a: Word)
    ensures Rot(a, 4) == Rotr(a, 4)
  {
    hide Rot, RotrBits;
    Raw4(a.v);
    RotBy2(a);
    RotBy2(Rotr(a, 2));
    RotAdd(a, 2, 2);
  }

  lemma RotBy8(a: Word)
    ensures Rot(a, 8) == Rotr(a, 8)
  {
    hide Rot, RotrBits;
    Raw8(a.v);
    RotBy4(a);
    RotBy4(Rotr(a, 4));
    RotAdd(a, 4, 4);
  }

  lemma RotBy16(a: Word)
    ensures Rot(a, 16) == Rotr(a, 16)
  {
    hide Rot, RotrBits;
    Raw16(a.v);
    RotBy8(a);
    RotBy8(Rotr(a, 8));
    RotAdd(a, 8, 8);
  }

  lemma RotBy32(a: Word)
    ensures Rot(a, 32) == Rotr(a, 32)
  {
    hide Rot, RotrBits;
    Raw32(a.v);
    RotBy16(a);
    RotBy16(Rotr(a, 16));
    RotAdd(a, 16, 16);
  }

  lemma RotBy64(a: Word)
    ensures Rot(a, 64) == a
  {
    hide Rot, RotrBits;
    Raw64(a.v);
    RotBy32(a);
    RotBy32(Rotr(a, 32));
    RotAdd(a, 32, 32);
  }

  lemma RotBy0(a: Word) ensures Rot(a, 0) == a {}

  lemma {:induction false} RotPeriod(a: Word, k: nat)
    ensures Rot(a, 64 * k) == a
  {
    hide *;
    if k == 0 { RotBy0(a); } else {
      RotPeriod(a, k - 1);
      RotAdd(a, 64 * (k - 1), 64);
      RotBy64(a);
    }
  }

  lemma Raw6(v: bv64) ensures RotrBits(v, 6) == RotrBits(RotrBits(v, 4), 2) {}
  lemma Raw7(v: bv64) ensures RotrBits(v, 7) == RotrBits(RotrBits(v, 6), 1) {}
  lemma Raw10(v: bv64) ensures RotrBits(v, 10) == RotrBits(RotrBits(v, 8), 2) {}
  lemma Raw17(v: bv64) ensures RotrBits(v, 17) == RotrBits(RotrBits(v, 16), 1) {}
  lemma Raw19(v: bv64) ensures RotrBits(v, 19) == RotrBits(RotrBits(v, 17), 2) {}
  lemma Raw28(v: bv64) ensures RotrBits(v, 28) == RotrBits(RotrBits(v, 24), 4) {}
  lemma Raw24(v: bv64) ensures RotrBits(v, 24) == RotrBits(RotrBits(v, 16), 8) {}
  lemma Raw39(v: bv64) ensures RotrBits(v, 39) == RotrBits(RotrBits(v, 32), 7) {}
  lemma Raw41(v: bv64) ensures RotrBits(v, 41) == RotrBits(RotrBits(v, 39), 2) {}
  lemma Raw60(v: bv64) ensures RotrBits(v, 60) == RotrBits(RotrBits(v, 32), 28) {}
  lemma Raw61(v: bv64) ensures RotrBits(v, 61) == RotrBits(RotrBits(v, 60), 1) {}

  lemma RotBy6(a: Word)
    ensures Rot(a, 6) == Rotr(a, 6)
  {
    hide Rot, RotrBits;
    Raw6(a.v);
    RotBy4(a);
    RotBy2(Rotr(a, 4));
    RotAdd(a, 4, 2);
  }

  lemma RotBy7(a: Word)
    ensures Rot(a, 7) == Rotr(a, 7)
  {
    hide Rot, RotrBits;
    Raw7(a.v);
    RotBy6(a);
    RotBy1(Rotr(a, 6));
    RotAdd(a, 6, 1);
  }

  lemma RotBy10(a: Word)
    ensures Rot(a, 10) == Rotr(a, 10)
  {
    hide Rot, RotrBits;
    Raw10(a.v);
    RotBy8(a);
    RotBy2(Rotr(a, 8));
    RotAdd(a, 8, 2);
  }

  lemma RotBy17(a: Word)
    ensures Rot(a, 17) == Rotr(a, 17)
  {
    hide Rot, RotrBits;
    Raw17(a.v);
    RotBy16(a);
    RotBy1(Rotr(a, 16));
    RotAdd(a, 16, 1);
  }

  lemma RotBy19(a: Word)
    ensures Rot(a, 19) == Rotr(a, 19)
  {
    hide Rot, RotrBits;
    Raw19(a.v);
    RotBy17(a);
    RotBy2(Rotr(a, 17));
    RotAdd(a, 17, 2);
  }

  lemma RotBy24(a: Word)
    ensures Rot(a, 24) == Rotr(a, 24)
  {
    hide Rot, RotrBits;
    Raw24(a.v);
    RotBy16(a);
    RotBy8(Rotr(a, 16));
    RotAdd(a, 16, 8);
  }

  lemma RotBy28(a: Word)
    ensures Rot(a, 28) == Rotr(a, 28)
  {
    hide Rot, RotrBits;
    Raw28(a.v);
    RotBy24(a);
    RotBy4(Rotr(a, 24));
    RotAdd(a, 24, 4);
  }

  lemma RotBy39(a: Word)
    ensures Rot(a, 39) == Rotr(a, 39)
  {
    hide Rot, RotrBits;
    Raw39(a.v);
    RotBy32(a);
    RotBy7(Rotr(a, 32));
    RotAdd(a, 32, 7);
  }

  lemma RotBy41(a: Word)
    ensures Rot(a, 41) == Rotr(a, 41)
  {
    hide Rot, RotrBits;
    Raw41(a.v);
    RotBy39(a);
    RotBy2(Rotr(a, 39));
    RotAdd(a, 39, 2);
  }

  lemma RotBy60(a: Word)
    ensures Rot(a, 60) == Rotr(a, 60)
  {
    hide Rot, RotrBits;
    Raw60(a.v);
    RotBy32(a);
    RotBy28(Rotr(a, 32));
    RotAdd(a, 32, 28);
  }

  lemma RotBy61(a: Word)
    ensures Rot(a, 61) == Rotr(a, 61)
  {
    hide Rot, RotrBits;
    Raw61(a.v);
    RotBy60(a);
    RotBy1(Rotr(a, 60));
    RotAdd(a, 60, 1);
  }

  // ---------- three-term diffusion: x + rot(x, a) + rot(x, b) ----------

  function Spread(x: Word, a: nat, b: nat): Word { Xor(Xor(x, Rot(x, a)), Rot(x, b)) }

  lemma RawAssocStep(a: bv64, b: bv64, c: bv64, ab: bv64, bc: bv64, l: bv64, r: bv64)
    requires ab == a ^ b && bc == b ^ c && l == ab ^ c && r == a ^ bc
    ensures l == r
  {}

  lemma RawAssoc(a: bv64, b: bv64, c: bv64)
    ensures XorBits(XorBits(a, b), c) == XorBits(a, XorBits(b, c))
  {
    hide *;
    XorDef(a, b);
    XorDef(b, c);
    XorDef(XorBits(a, b), c);
    XorDef(a, XorBits(b, c));
    RawAssocStep(a, b, c, XorBits(a, b), XorBits(b, c), XorBits(XorBits(a, b), c), XorBits(a, XorBits(b, c)));
  }

  lemma RawComm(a: bv64, b: bv64) ensures XorBits(a, b) == XorBits(b, a) {}

  lemma XorAssoc(a: Word, b: Word, c: Word)
    ensures Xor(Xor(a, b), c) == Xor(a, Xor(b, c))
  {
    hide XorBits;
    RawAssoc(a.v, b.v, c.v);
  }

  lemma XorComm(a: Word, b: Word)
    ensures Xor(a, b) == Xor(b, a)
  {
    hide XorBits;
    RawComm(a.v, b.v);
  }

  // Swaps the last two terms of a sum.
  lemma XorSwap(a: Word, b: Word, c: Word)
    ensures Xor(Xor(a, b), c) == Xor(Xor(a, c), b)
  {
    hide Xor;
    XorAssoc(a, b, c);
    XorAssoc(a, c, b);
    XorComm(b, c);
  }

  // Adds a sum of three term by term.
  lemma XorThree(a: Word, b: Word, c: Word, d: Word)
    ensures Xor(a, Xor(Xor(b, c), d)) == Xor(Xor(Xor(a, b), c), d)
  {
    hide Xor;
    XorAssoc(a, Xor(b, c), d);
    XorAssoc(a, b, c);
  }

  lemma NineTerms(x: Word, ra: Word, rb: Word, raa: Word, rab: Word, rbb: Word)
    ensures Xor(Xor(Xor(Xor(x, ra), rb), Xor(Xor(ra, raa), rab)), Xor(Xor(rb, rab), rbb)) == Xor(Xor(x, raa), rbb)
  {
    hide Xor;
    XorThree(Xor(Xor(x, ra), rb), ra, raa, rab);
    XorSwap(x, ra, rb);
    XorTwice(Xor(x, rb), ra);
    XorSwap(x, rb, raa);
    var y := Xor(x, raa);
    XorThree(Xor(Xor(y, rb), rab), rb, rab, rbb);
    XorSwap(y, rb, rab);
    XorTwice(Xor(y, rab), rb);
    XorTwice(y, rab);
  }

  lemma RotSpread(x: Word, a: nat, b: nat, n: nat)
    ensures Rot(Spread(x, a, b), n) == Xor(Xor(Rot(x, n), Rot(x, a + n)), Rot(x, b + n))
  {
    hide Rot, Xor;
    RotXor(Xor(x, Rot(x, a)), Rot(x, b), n);
    RotXor(x, Rot(x, a), n);
    RotAdd(x, a, n);
    RotAdd(x, b, n);
  }

  // Squaring the map doubles both rotations.
  lemma SpreadSquared(x: Word, a: nat, b: nat)
    ensures Spread(Spread(x, a, b), a, b) == Spread(x, 2 * a, 2 * b)
  {
    hide Rot, Xor;
    RotSpread(x, a, b, a);
    RotSpread(x, a, b, b);
    assert a + a == 2 * a && b + b == 2 * b && a + b == b + a;
    NineTerms(x, Rot(x, a), Rot(x, b), Rot(x, 2 * a), Rot(x, a + b), Rot(x, 2 * b));
  }

  function Iterate(x: Word, a: nat, b: nat, n: nat): Word {
    if n == 0 then x else Spread(Iterate(x, a, b, n - 1), a, b)
  }

  lemma {:induction false} IterateAdd(x: Word, a: nat, b: nat, m: nat, n: nat)
    ensures Iterate(Iterate(x, a, b, m), a, b, n) == Iterate(x, a, b, m + n)
  {
    hide Spread;
    if n > 0 { IterateAdd(x, a, b, m, n - 1); }
  }

  lemma {:induction false} IterateTwoTo(x: Word, a: nat, b: nat, k: nat)
    ensures Iterate(x, a, b, TwoTo(k)) == Spread(x, TwoTo(k) * a, TwoTo(k) * b)
    decreases k
  {
    hide Spread;
    if k == 0 {
      assert Iterate(x, a, b, 0) == x;
    } else {
      var h := TwoTo(k - 1);
      IterateAdd(x, a, b, h, h);
      IterateTwoTo(x, a, b, k - 1);
      IterateTwoTo(Spread(x, h * a, h * b), a, b, k - 1);
      SpreadSquared(x, h * a, h * b);
      assert 2 * (h * a) == TwoTo(k) * a && 2 * (h * b) == TwoTo(k) * b;
    }
  }

  // The sixty-fourth power of the diffusion map is the identity.
  lemma SpreadOrder(x: Word, a: nat, b: nat)
    ensures Iterate(x, a, b, 64) == x
  {
    hide Rot, Xor, Iterate;
    IterateTwoTo(x, a, b, 6);
    assert TwoTo(6) == 64;
    RotPeriod(x, a);
    RotPeriod(x, b);
    XorTwice(x, x);
  }

  function Unspread(x: Word, a: nat, b: nat): Word { Iterate(x, a, b, 63) }

  lemma IterateOnce(x: Word, a: nat, b: nat)
    ensures Iterate(x, a, b, 1) == Spread(x, a, b)
  {
    hide Spread;
    assert Iterate(x, a, b, 0) == x;
  }

  lemma SpreadInvertible(x: Word, a: nat, b: nat)
    ensures Unspread(Spread(x, a, b), a, b) == x
    ensures Spread(Unspread(x, a, b), a, b) == x
  {
    hide Spread, Iterate;
    SpreadOrder(x, a, b);
    IterateAdd(x, a, b, 1, 63);
    IterateAdd(x, a, b, 63, 1);
    IterateOnce(x, a, b);
    IterateOnce(Iterate(x, a, b, 63), a, b);
  }

  // ---------- the three layers of a round ----------

  function AddConstant(s: State, c: Word): State { s.(x2 := Xor(s.x2, c)) }

  lemma ConstantTwice(s: State, c: Word)
    ensures AddConstant(AddConstant(s, c), c) == s
  {
    hide Xor;
    XorTwice(s.x2, c);
  }

  // The non-linear core of the S-box, bitsliced.
  function Chi(s: State): State {
    State(Xor(s.x0, And(Not(s.x1), s.x2)),
          Xor(s.x1, And(Not(s.x2), s.x3)),
          Xor(s.x2, And(Not(s.x3), s.x4)),
          Xor(s.x3, And(Not(s.x4), s.x0)),
          Xor(s.x4, And(Not(s.x0), s.x1)))
  }

  function UnchiWord(a: Word, b: Word, c: Word, d: Word, e: Word): Word {
    Word(UnchiBits(a.v, b.v, c.v, d.v, e.v))
  }

  function Unchi(s: State): State {
    State(UnchiWord(s.x0, s.x1, s.x2, s.x3, s.x4),
          UnchiWord(s.x1, s.x2, s.x3, s.x4, s.x0),
          UnchiWord(s.x2, s.x3, s.x4, s.x0, s.x1),
          UnchiWord(s.x3, s.x4, s.x0, s.x1, s.x2),
          UnchiWord(s.x4, s.x0, s.x1, s.x2, s.x3))
  }

  function ChiBits(a: bv64, b: bv64, c: bv64): bv64 { a ^ (!b & c) }

  function UnchiBits(a: bv64, b: bv64, c: bv64, d: bv64, e: bv64): bv64 { a ^ (!b & (c ^ (!d & e))) }

  lemma XorDef(a: bv64, b: bv64) ensures XorBits(a, b) == a ^ b {}

  lemma AndDef(a: bv64, b: bv64) ensures AndBits(a, b) == a & b {}

  lemma NotDef(a: bv64) ensures NotBits(a) == !a {}

  lemma ChiDef(a: bv64, b: bv64, c: bv64) ensures ChiBits(a, b, c) == a ^ (!b & c) {}

  lemma UnchiDef(a: bv64, b: bv64, c: bv64, d: bv64, e: bv64)
    ensures UnchiBits(a, b, c, d, e) == a ^ (!b & (c ^ (!d & e)))
  {}

  lemma ChiByParts(a: bv64, b: bv64, c: bv64)
    ensures XorBits(a, AndBits(NotBits(b), c)) == ChiBits(a, b, c)
  {
    hide *;
    NotDef(b);
    AndDef(!b, c);
    XorDef(a, !b & c);
    ChiDef(a, b, c);
  }

  lemma RawUnchiChi(a: bv64, b: bv64, c: bv64, d: bv64, e: bv64)
    ensures (a ^ (!b & c)) ^ (!(b ^ (!c & d)) & ((c ^ (!d & e)) ^ (!(d ^ (!e & a)) & (e ^ (!a & b))))) == a
  {}

  lemma RawChiUnchi(a: bv64, b: bv64, c: bv64, d: bv64, e: bv64)
    ensures (a ^ (!b & (c ^ (!d & e)))) ^ (!(b ^ (!c & (d ^ (!e & a)))) & (c ^ (!d & (e ^ (!a & b))))) == a
  {}

  lemma UnchiChi(a: bv64, b: bv64, c: bv64, d: bv64, e: bv64)
    ensures UnchiBits(ChiBits(a, b, c), ChiBits(b, c, d), ChiBits(c, d, e), ChiBits(d, e, a), ChiBits(e, a, b)) == a
  {
    hide *;
    ChiDef(a, b, c);
    ChiDef(b, c, d);
    ChiDef(c, d, e);
    ChiDef(d, e, a);
    ChiDef(e, a, b);
    UnchiDef(a ^ (!b & c), b ^ (!c & d), c ^ (!d & e), d ^ (!e & a), e ^ (!a & b));
    RawUnchiChi(a, b, c, d, e);
  }

  lemma ChiUnchi(a: bv64, b: bv64, c: bv64, d: bv64, e: bv64)
    ensures ChiBits(UnchiBits(a, b, c, d, e), UnchiBits(b, c, d, e, a), UnchiBits(c, d, e, a, b)) == a
  {
    hide *;
    UnchiDef(a, b, c, d, e);
    UnchiDef(b, c, d, e, a);
    UnchiDef(c, d, e, a, b);
    ChiDef(a ^ (!b & (c ^ (!d & e))), b ^ (!c & (d ^ (!e & a))), c ^ (!d & (e ^ (!a & b))));
    RawChiUnchi(a, b, c, d, e);
  }

  lemma ChiWord(a: Word, b: Word, c: Word)
    ensures Xor(a, And(Not(b), c)) == Word(ChiBits(a.v, b.v, c.v))
  {
    hide XorBits, AndBits, NotBits, ChiBits;
    ChiByParts(a.v, b.v, c.v);
  }

  lemma UnchiChiWord(a: Word, b: Word, c: Word, d: Word, e: Word)
    ensures UnchiWord(Xor(a, And(Not(b), c)), Xor(b, And(Not(c), d)), Xor(c, And(Not(d), e)),
                      Xor(d, And(Not(e), a)), Xor(e, And(Not(a), b))) == a
  {
    hide Xor, And, Not, ChiBits, UnchiBits;
    ChiWord(a, b, c);
    ChiWord(b, c, d);
    ChiWord(c, d, e);
    ChiWord(d, e, a);
    ChiWord(e, a, b);
    UnchiChi(a.v, b.v, c.v, d.v, e.v);
  }

  lemma ChiUnchiWord(a: Word, b: Word, c: Word, d: Word, e: Word)
    ensures Xor(UnchiWord(a, b, c, d, e), And(Not(UnchiWord(b, c, d, e, a)), UnchiWord(c, d, e, a, b))) == a
  {
    hide Xor, And, Not, ChiBits, UnchiBits;
    ChiWord(UnchiWord(a, b, c, d, e), UnchiWord(b, c, d, e, a), UnchiWord(c, d, e, a, b));
    ChiUnchi(a.v, b.v, c.v, d.v, e.v);
  }

  lemma ChiInvertible(s: State)
    ensures Unchi(Chi(s)) == s
    ensures Chi(Unchi(s)) == s
  {
    hide Xor, And, Not, UnchiWord;
    UnchiChiWord(s.x0, s.x1, s.x2, s.x3, s.x4);
    UnchiChiWord(s.x1, s.x2, s.x3, s.x4, s.x0);
    UnchiChiWord(s.x2, s.x3, s.x4, s.x0, s.x1);
    UnchiChiWord(s.x3, s.x4, s.x0, s.x1, s.x2);
    UnchiChiWord(s.x4, s.x0, s.x1, s.x2, s.x3);
    ChiUnchiWord(s.x0, s.x1, s.x2, s.x3, s.x4);
    ChiUnchiWord(s.x1, s.x2, s.x3, s.x4, s.x0);
    ChiUnchiWord(s.x2, s.x3, s.x4, s.x0, s.x1);
    ChiUnchiWord(s.x3, s.x4, s.x0, s.x1, s.x2);
    ChiUnchiWord(s.x4, s.x0, s.x1, s.x2, s.x3);
  }

  // The linear maps around it.
  function Before(s: State): State {
    State(Xor(s.x0, s.x4), s.x1, Xor(s.x2, s.x1), s.x3, Xor(s.x4, s.x3))
  }

  function Unbefore(s: State): State {
    var x4 := Xor(s.x4, s.x3);
    State(Xor(s.x0, x4), s.x1, Xor(s.x2, s.x1), s.x3, x4)
  }

  function After(s: State): State {
    State(Xor(s.x0, s.x4), Xor(s.x1, s.x0), Not(s.x2), Xor(s.x3, s.x2), s.x4)
  }

  function Unafter(s: State): State {
    var x0 := Xor(s.x0, s.x4);
    var x2 := Not(s.x2);
    State(x0, Xor(s.x1, x0), x2, Xor(s.x3, x2), s.x4)
  }

  lemma BeforeInvertible(s: State)
    ensures Unbefore(Before(s)) == s
    ensures Before(Unbefore(s)) == s
  {
    hide Xor;
    XorTwice(s.x4, s.x3);
    XorTwice(s.x0, s.x4);
    XorTwice(s.x2, s.x1);
    XorTwice(s.x0, Xor(s.x4, s.x3));
  }

  lemma AfterInvertible(s: State)
    ensures Unafter(After(s)) == s
    ensures After(Unafter(s)) == s
  {
    hide Xor, Not;
    XorTwice(s.x0, s.x4);
    XorTwice(s.x1, s.x0);
    XorTwice(s.x3, s.x2);
    NotTwice(s.x2);
    XorTwice(s.x1, Xor(s.x0, s.x4));
    XorTwice(s.x3, Not(s.x2));
  }

  function Substitute(s: State): State { After(Chi(Before(s))) }

  function Unsubstitute(s: State): State { Unbefore(Unchi(Unafter(s))) }

  function Diffuse(s: State): State {
    State(Spread(s.x0, 19, 28), Spread(s.x1, 61, 39), Spread(s.x2, 1, 6), Spread(s.x3, 10, 17), Spread(s.x4, 7, 41))
  }

  function Undiffuse(s: State): State {
    State(Unspread(s.x0, 19, 28), Unspread(s.x1, 61, 39), Unspread(s.x2, 1, 6),
          Unspread(s.x3, 10, 17), Unspread(s.x4, 7, 41))
  }

  lemma SubstituteInvertible(s: State)
    ensures Unsubstitute(Substitute(s)) == s
    ensures Substitute(Unsubstitute(s)) == s
  {
    hide Before, Unbefore, After, Unafter, Chi, Unchi;
    BeforeInvertible(s);
    ChiInvertible(Before(s));
    AfterInvertible(Chi(Before(s)));
    AfterInvertible(s);
    ChiInvertible(Unafter(s));
    BeforeInvertible(Unchi(Unafter(s)));
  }

  lemma DiffuseInvertible(s: State)
    ensures Undiffuse(Diffuse(s)) == s
    ensures Diffuse(Undiffuse(s)) == s
  {
    hide Spread, Unspread;
    SpreadInvertible(s.x0, 19, 28);
    SpreadInvertible(s.x1, 61, 39);
    SpreadInvertible(s.x2, 1, 6);
    SpreadInvertible(s.x3, 10, 17);
    SpreadInvertible(s.x4, 7, 41);
  }

  // ---------- one bit column: the S-box as a table ----------

  function LowBits(v: bv64): bool { v & 1 == 1 }

  function Low(a: Word): bool { LowBits(a.v) }

  // Bit i of a word, counted from the least significant one.
  function Bit(a: Word, i: nat): bool { Low(Rot(a, i)) }

  lemma RawLow(v: bv64, w: bv64)
    ensures LowBits(XorBits(v, w)) == (LowBits(v) != LowBits(w))
    ensures LowBits(AndBits(v, w)) == (LowBits(v) && LowBits(w))
    ensures LowBits(NotBits(v)) == !LowBits(v)
  {}

  lemma RawRotAnd(v: bv64, w: bv64)
    ensures RotrBits(AndBits(v, w), 1) == AndBits(RotrBits(v, 1), RotrBits(w, 1))
  {}

  lemma {:induction false} RotAnd(a: Word, b: Word, n: nat)
    ensures Rot(And(a, b), n) == And(Rot(a, n), Rot(b, n))
  {
    hide AndBits, RotrBits;
    if n > 0 { RotAnd(a, b, n - 1); RawRotAnd(Rot(a, n - 1).v, Rot(b, n - 1).v); }
  }

  const ONES: Word := Word(0xFFFF_FFFF_FFFF_FFFF)

  lemma RawNotIsXor(v: bv64) ensures NotBits(v) == XorBits(v, 0xFFFF_FFFF_FFFF_FFFF) {}

  lemma NotIsXor(a: Word)
    ensures Not(a) == Xor(a, ONES)
  {
    hide NotBits, XorBits;
    RawNotIsXor(a.v);
  }

  lemma RotrOnes() ensures Rotr(ONES, 1) == ONES {}

  lemma {:induction false} RotOnes(n: nat)
    ensures Rot(ONES, n) == ONES
  {
    hide Rotr, ONES;
    if n > 0 { RotOnes(n - 1); RotrOnes(); }
  }

  lemma RotNot(a: Word, n: nat)
    ensures Rot(Not(a), n) == Not(Rot(a, n))
  {
    hide *;
    NotIsXor(a);
    NotIsXor(Rot(a, n));
    RotXor(a, ONES, n);
    RotOnes(n);
  }

  lemma BitXor(a: Word, b: Word, i: nat)
    ensures Bit(Xor(a, b), i) == (Bit(a, i) != Bit(b, i))
  {
    hide XorBits, LowBits, Rot;
    RotXor(a, b, i);
    RawLow(Rot(a, i).v, Rot(b, i).v);
  }

  lemma BitAnd(a: Word, b: Word, i: nat)
    ensures Bit(And(a, b), i) == (Bit(a, i) && Bit(b, i))
  {
    hide AndBits, LowBits, Rot;
    RotAnd(a, b, i);
    RawLow(Rot(a, i).v, Rot(b, i).v);
  }

  lemma BitNot(a: Word, i: nat)
    ensures Bit(Not(a), i) == !Bit(a, i)
  {
    hide NotBits, LowBits, Rot;
    RotNot(a, i);
    RawLow(Rot(a, i).v, Rot(a, i).v);
  }

  datatype Column = Column(b0: bool, b1: bool, b2: bool, b3: bool, b4: bool)

  function ColumnOf(s: State, i: nat): Column {
    Column(Bit(s.x0, i), Bit(s.x1, i), Bit(s.x2, i), Bit(s.x3, i), Bit(s.x4, i))
  }

  // The five bits as a number, word 0 giving the most significant one.
  function ColumnValue(c: Column): (v: nat)
    ensures v < 32
  {
    (if c.b0 then 16 else 0) + (if c.b1 then 8 else 0) + (if c.b2 then 4 else 0)
    + (if c.b3 then 2 else 0) + (if c.b4 then 1 else 0)
  }

  // The S-box of Ascon v1.2, section 2.6.2, as a lookup table.
  const SBOX: seq<nat> :=
    [0x04, 0x0b, 0x1f, 0x14, 0x1a, 0x15, 0x09, 0x02, 0x1b, 0x05, 0x08, 0x12, 0x1d, 0x03, 0x06, 0x1c,
     0x1e, 0x13, 0x07, 0x0e, 0x00, 0x0d, 0x11, 0x18, 0x10, 0x0c, 0x01, 0x19, 0x16, 0x0a, 0x0f, 0x17]

  function ColumnChi(a: bool, b: bool, c: bool): bool { a != (!b && c) }

  function ColumnBefore(c: Column): Column { Column(c.b0 != c.b4, c.b1, c.b2 != c.b1, c.b3, c.b4 != c.b3) }

  function ColumnAround(c: Column): Column {
    Column(ColumnChi(c.b0, c.b1, c.b2), ColumnChi(c.b1, c.b2, c.b3), ColumnChi(c.b2, c.b3, c.b4),
           ColumnChi(c.b3, c.b4, c.b0), ColumnChi(c.b4, c.b0, c.b1))
  }

  function ColumnAfter(c: Column): Column { Column(c.b0 != c.b4, c.b1 != c.b0, !c.b2, c.b3 != c.b2, c.b4) }

  lemma ColumnIsTable(c: Column)
    ensures ColumnValue(c) < |SBOX|
    ensures ColumnValue(ColumnAfter(ColumnAround(ColumnBefore(c)))) == SBOX[ColumnValue(c)]
  {
    if c.b0 { if c.b1 {} else {} } else { if c.b1 {} else {} }
  }

  lemma BitChi(a: Word, b: Word, c: Word, i: nat)
    ensures Bit(Xor(a, And(Not(b), c)), i) == ColumnChi(Bit(a, i), Bit(b, i), Bit(c, i))
  {
    hide Bit, Xor, And, Not;
    BitXor(a, And(Not(b), c), i);
    BitAnd(Not(b), c, i);
    BitNot(b, i);
  }

  lemma BeforeColumn(s: State, i: nat)
    ensures ColumnOf(Before(s), i) == ColumnBefore(ColumnOf(s, i))
  {
    hide Bit, Xor;
    BitXor(s.x0, s.x4, i);
    BitXor(s.x2, s.x1, i);
    BitXor(s.x4, s.x3, i);
  }

  lemma ChiColumn(s: State, i: nat)
    ensures ColumnOf(Chi(s), i) == ColumnAround(ColumnOf(s, i))
  {
    hide Bit, Xor, And, Not;
    BitChi(s.x0, s.x1, s.x2, i);
    BitChi(s.x1, s.x2, s.x3, i);
    BitChi(s.x2, s.x3, s.x4, i);
    BitChi(s.x3, s.x4, s.x0, i);
    BitChi(s.x4, s.x0, s.x1, i);
  }

  lemma AfterColumn(s: State, i: nat)
    ensures ColumnOf(After(s), i) == ColumnAfter(ColumnOf(s, i))
  {
    hide Bit, Xor, Not;
    BitXor(s.x0, s.x4, i);
    BitXor(s.x1, s.x0, i);
    BitXor(s.x3, s.x2, i);
    BitNot(s.x2, i);
  }

  // The bitsliced substitution applies the table to every column of the state.
  lemma SubstituteIsTable(s: State, i: nat)
    ensures ColumnValue(ColumnOf(s, i)) < |SBOX|
    ensures ColumnValue(ColumnOf(Substitute(s), i)) == SBOX[ColumnValue(ColumnOf(s, i))]
  {
    hide ColumnOf, ColumnValue, ColumnBefore, ColumnAround, ColumnAfter, Before, Chi, After, SBOX;
    BeforeColumn(s, i);
    ChiColumn(Before(s), i);
    AfterColumn(Chi(Before(s)), i);
    ColumnIsTable(ColumnOf(s, i));
  }

  // Bit i of a diffused word is the sum of bits i, i + a and i + b.
  lemma DiffuseBit(x: Word, a: nat, b: nat, i: nat)
    ensures Bit(Spread(x, a, b), i) == ((Bit(x, i) != Bit(x, a + i)) != Bit(x, b + i))
  {
    hide Xor, Rot, LowBits, XorBits;
    BitXor(Xor(x, Rot(x, a)), Rot(x, b), i);
    BitXor(x, Rot(x, a), i);
    RotAdd(x, a, i);
    RotAdd(x, b, i);
  }

  // One round, and the round that undoes it.
  function Round(s: State, c: Word): State { Diffuse(Substitute(AddConstant(s, c))) }

  function Unround(s: State, c: Word): State { AddConstant(Unsubstitute(Undiffuse(s)), c) }

  lemma RoundInvertible(s: State, c: Word)
    ensures Unround(Round(s, c), c) == s
    ensures Round(Unround(s, c), c) == s
  {
    hide AddConstant, Substitute, Unsubstitute, Diffuse, Undiffuse;
    ConstantTwice(s, c);
    SubstituteInvertible(AddConstant(s, c));
    DiffuseInvertible(Substitute(AddConstant(s, c)));
    DiffuseInvertible(s);
    SubstituteInvertible(Undiffuse(s));
    ConstantTwice(Unsubstitute(Undiffuse(s)), c);
  }

  const ROUNDS_A: nat := 12
  const ROUNDS_B: nat := 8

  function RoundConstant(i: nat): Word
    requires i < 12
  {
    match i
    case 0 => Word(0xf0) case 1 => Word(0xe1) case 2 => Word(0xd2) case 3 => Word(0xc3)
    case 4 => Word(0xb4) case 5 => Word(0xa5) case 6 => Word(0x96) case 7 => Word(0x87)
    case 8 => Word(0x78) case 9 => Word(0x69) case 10 => Word(0x5a) case _ => Word(0x4b)
  }

  // The last n rounds of the twelve.
  function Permute(s: State, n: nat): State
    requires n <= ROUNDS_A
    decreases n, s
  {
    if n == 0 then s else Permute(Round(s, RoundConstant(12 - n)), n - 1)
  }

  function Unpermute(s: State, n: nat): State
    requires n <= ROUNDS_A
  {
    if n == 0 then s else Unround(Unpermute(s, n - 1), RoundConstant(12 - n))
  }

  // Every p^n with n <= 12 is a bijection on 320-bit states.
  lemma {:induction false} PermuteInvertible(s: State, n: nat)
    requires n <= ROUNDS_A
    ensures Unpermute(Permute(s, n), n) == s
    ensures Permute(Unpermute(s, n), n) == s
    decreases n
  {
    hide Round, Unround, RoundConstant;
    if n > 0 {
      var c := RoundConstant(12 - n);
      RoundInvertible(s, c);
      PermuteInvertible(Round(s, c), n - 1);
      RoundInvertible(Unpermute(s, n - 1), c);
      PermuteInvertible(s, n - 1);
    }
  }

  // ---------- the in-place code ----------

  ghost function StateOf(x: array<Word>): State
    requires x.Length == 5
    reads x
  {
    State(x[0], x[1], x[2], x[3], x[4])
  }

  method AsconRound(x: array<Word>, c: Word)
    requires x.Length == 5
    modifies x
    ensures StateOf(x) == Round(old(StateOf(x)), c)
  {
    hide Xor, And, Not, Rotr, Rot;
    var x0, x1, x2, x3, x4 := x[0], x[1], x[2], x[3], x[4];
    x2 := Xor(x2, c);
    x0 := Xor(x0, x4);
    x4 := Xor(x4, x3);
    x2 := Xor(x2, x1);
    var t0 := And(Not(x0), x1);
    var t1 := And(Not(x1), x2);
    var t2 := And(Not(x2), x3);
    var t3 := And(Not(x3), x4);
    var t4 := And(Not(x4), x0);
    x0 := Xor(x0, t1);
    x1 := Xor(x1, t2);
    x2 := Xor(x2, t3);
    x3 := Xor(x3, t4);
    x4 := Xor(x4, t0);
    x1 := Xor(x1, x0);
    x0 := Xor(x0, x4);
    x3 := Xor(x3, x2);
    x2 := Not(x2);
    assert State(x0, x1, x2, x3, x4) == Substitute(AddConstant(old(StateOf(x)), c));
    RotBy19(x0); RotBy28(x0);
    RotBy61(x1); RotBy39(x1);
    RotBy1(x2); RotBy6(x2);
    RotBy10(x3); RotBy17(x3);
    RotBy7(x4); RotBy41(x4);
    x[0] := Xor(Xor(x0, Rotr(x0, 19)), Rotr(x0, 28));
    x[1] := Xor(Xor(x1, Rotr(x1, 61)), Rotr(x1, 39));
    x[2] := Xor(Xor(x2, Rotr(x2, 1)), Rotr(x2, 6));
    x[3] := Xor(Xor(x3, Rotr(x3, 10)), Rotr(x3, 17));
    x[4] := Xor(Xor(x4, Rotr(x4, 7)), Rotr(x4, 41));
  }

  method PermuteInPlace(x: array<Word>, rounds: nat)
    requires x.Length == 5 && rounds <= ROUNDS_A
    modifies x
    ensures StateOf(x) == Permute(old(StateOf(x)), rounds)
  {
    hide Round, RoundConstant, StateOf;
    var i := ROUNDS_A - rounds;
    while i < ROUNDS_A
      invariant ROUNDS_A - rounds <= i <= ROUNDS_A
      invariant Permute(StateOf(x), ROUNDS_A - i) == Permute(old(StateOf(x)), rounds)
    {
      AsconRound(x, RoundConstant(i));
      i := i + 1;
    }
  }
}
