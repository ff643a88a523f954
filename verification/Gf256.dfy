// The field of 256 elements: polynomials over GF(2) modulo x^8 + x^4 + x^3 + x^2 + 1.
module Gf256 {
  datatype Gf = Gf(bits: bv8)

  const Zero: Gf := Gf(0)
  const One: Gf := Gf(1)

  function Add(a: Gf, b: Gf): Gf { Gf(a.bits ^ b.bits) }

  function XTime(a: Gf): Gf {
    var top := a.bits >> 7;
    Gf((a.bits << 1) ^ (top << 4) ^ (top << 3) ^ (top << 2) ^ top)
  }

  function Half(b: Gf): Gf { Gf(b.bits >> 1) }
  function Sel(a: Gf, b: Gf): Gf { if b.bits & 1 != 0 then a else Zero }

  function Mul(a: Gf, b: Gf): Gf
    decreases b.bits
  {
    if b == Zero then Zero else Add(Sel(a, b), XTime(Mul(a, Half(b))))
  }

  lemma AddComm(a: Gf, b: Gf) ensures Add(a, b) == Add(b, a) {}
  lemma AddAssoc(a: Gf, b: Gf, c: Gf) ensures Add(Add(a, b), c) == Add(a, Add(b, c)) {}
  lemma AddShuffle(a: Gf, b: Gf, c: Gf, d: Gf)
    ensures Add(Add(a, b), Add(c, d)) == Add(Add(a, c), Add(b, d))
  {}

  lemma AddZero(a: Gf) ensures Add(a, Zero) == a && Add(Zero, a) == a {}
  lemma AddSelf(a: Gf) ensures Add(a, a) == Zero {}
  lemma AddEqZero(a: Gf, b: Gf) ensures Add(a, b) == Zero <==> a == b {}

  lemma XTimeAdd(a: Gf, b: Gf) ensures XTime(Add(a, b)) == Add(XTime(a), XTime(b)) {}
  lemma SelAddLeft(a: Gf, b: Gf, c: Gf) ensures Sel(Add(a, b), c) == Add(Sel(a, c), Sel(b, c)) {}
  lemma SelAddRight(a: Gf, b: Gf, c: Gf) ensures Sel(a, Add(b, c)) == Add(Sel(a, b), Sel(a, c)) {}
  lemma SelXTime(a: Gf, c: Gf) ensures Sel(XTime(a), c) == XTime(Sel(a, c)) {}
  lemma HalfAdd(a: Gf, b: Gf) ensures Half(Add(a, b)) == Add(Half(a), Half(b)) {}
  lemma HalfSmaller(b: Gf) requires b != Zero ensures Half(b).bits < b.bits {}
  lemma HalfSplit(b: Gf) ensures b == Add(Sel(One, b), XTime(Half(b))) {}
  lemma HalfZero() ensures Half(Zero) == Zero && XTime(Zero) == Zero {}

  lemma MulZero(a: Gf) ensures Mul(a, Zero) == Zero {}
  lemma MulStep(a: Gf, b: Gf)
    ensures Mul(a, b) == Add(Sel(a, b), XTime(Mul(a, Half(b))))
  {
    if b == Zero {
      assert Sel(a, b) == Zero;
    }
  }

  lemma {:induction false} MulAddLeft(a: Gf, b: Gf, c: Gf)
    ensures Mul(Add(a, b), c) == Add(Mul(a, c), Mul(b, c))
    decreases c.bits
  {
    hide *;
    if c == Zero {
      MulZero(a); MulZero(b); MulZero(Add(a, b)); AddZero(Zero);
    } else {
      var h := Half(c);
      HalfSmaller(c);
      MulAddLeft(a, b, h);
      MulStep(Add(a, b), c); MulStep(a, c); MulStep(b, c);
      SelAddLeft(a, b, c);
      XTimeAdd(Mul(a, h), Mul(b, h));
      AddShuffle(Sel(a, c), Sel(b, c), XTime(Mul(a, h)), XTime(Mul(b, h)));
    }
  }

  lemma {:induction false} MulAddRight(a: Gf, b: Gf, c: Gf)
    ensures Mul(a, Add(b, c)) == Add(Mul(a, b), Mul(a, c))
    decreases b.bits
  {
    hide *;
    if b == Zero {
      MulZero(a); AddZero(c); AddZero(Mul(a, c));
    } else {
      var h, k := Half(b), Half(c);
      HalfSmaller(b);
      MulAddRight(a, h, k);
      MulStep(a, Add(b, c)); MulStep(a, b); MulStep(a, c);
      SelAddRight(a, b, c);
      HalfAdd(b, c);
      XTimeAdd(Mul(a, h), Mul(a, k));
      AddShuffle(Sel(a, b), Sel(a, c), XTime(Mul(a, h)), XTime(Mul(a, k)));
    }
  }

  lemma {:induction false} MulXTimeLeft(a: Gf, b: Gf)
    ensures Mul(XTime(a), b) == XTime(Mul(a, b))
    decreases b.bits
  {
    hide *;
    if b == Zero {
      MulZero(a); MulZero(XTime(a)); HalfZero();
    } else {
      var h := Half(b);
      HalfSmaller(b);
      MulXTimeLeft(a, h);
      MulStep(a, b); MulStep(XTime(a), b);
      SelXTime(a, b);
      XTimeAdd(Sel(a, b), XTime(Mul(a, h)));
    }
  }

  // Multiplication is commutative.
  lemma {:induction false} MulComm(a: Gf, b: Gf)
    ensures Mul(a, b) == Mul(b, a)
    decreases b.bits
  {
    hide *;
    if b == Zero {
      MulZero(a); ZeroMul(a);
    } else {
      var h := Half(b);
      HalfSmaller(b);
      MulComm(a, h);
      MulStep(a, b);
      HalfSplit(b);
      MulAddLeft(Sel(One, b), XTime(h), a);
      SelOneMul(b, a);
      MulXTimeLeft(h, a);
    }
  }

  lemma {:induction false} ZeroMul(a: Gf)
    ensures Mul(Zero, a) == Zero
    decreases a.bits
  {
    if a != Zero { HalfSmaller(a); ZeroMul(Half(a)); }
  }

  lemma SelOneMul(b: Gf, a: Gf)
    ensures Mul(Sel(One, b), a) == Sel(a, b)
  {
    ZeroMul(a); OneMul(a);
  }

  lemma {:induction false} OneMul(a: Gf)
    ensures Mul(One, a) == a
    decreases a.bits
  {
    hide *;
    if a == Zero { MulZero(One); } else {
      HalfSmaller(a); OneMul(Half(a));
      MulStep(One, a); HalfSplit(a);
    }
  }

  lemma {:induction false} MulAssoc(a: Gf, b: Gf, c: Gf)
    ensures Mul(Mul(a, b), c) == Mul(a, Mul(b, c))
    decreases c.bits
  {
    hide *;
    if c == Zero { MulZero(a); MulZero(b); MulZero(Mul(a, b)); } else {
      var h := Half(c);
      HalfSmaller(c);
      MulAssoc(a, b, h);
      MulStep(Mul(a, b), c); MulStep(b, c);
      MulAddRight(a, Sel(b, c), XTime(Mul(b, h)));
      MulSel(a, b, c);
      MulXTimeRight(a, Mul(b, h));
    }
  }

  lemma MulSel(a: Gf, b: Gf, c: Gf)
    ensures Mul(a, Sel(b, c)) == Sel(Mul(a, b), c)
  {
    MulZero(a);
  }

  lemma MulXTimeRight(a: Gf, b: Gf)
    ensures Mul(a, XTime(b)) == XTime(Mul(a, b))
  {
    hide *;
    MulComm(a, XTime(b)); MulXTimeLeft(b, a); MulComm(b, a);
  }

  const Alpha: Gf := Gf(2)

  function Pow(a: Gf, n: nat): Gf { if n == 0 then One else Mul(a, Pow(a, n - 1)) }

  lemma MulOne(a: Gf) ensures Mul(a, One) == a && Mul(One, a) == a {
    hide *;
    OneMul(a); MulComm(a, One);
  }

  lemma {:induction false} PowAdd(a: Gf, m: nat, n: nat)
    ensures Pow(a, m + n) == Mul(Pow(a, m), Pow(a, n))
  {
    hide Mul, XTime, Add;
    if m == 0 { MulOne(Pow(a, n)); } else {
      PowAdd(a, m - 1, n);
      MulAssoc(a, Pow(a, m - 1), Pow(a, n));
    }
  }

  lemma PowStep(a: Gf, n: nat) ensures Pow(a, n + 1) == Mul(a, Pow(a, n)) {}
  lemma PowBase(a: Gf) ensures Pow(a, 0) == One && Pow(a, 1) == a { MulOne(a); }

  lemma {:induction false} PowTimes(a: Gf, m: nat, n: nat)
    ensures Pow(a, m * n) == Pow(Pow(a, m), n)
  {
    hide *;
    if n == 0 { PowBase(a); PowBase(Pow(a, m)); } else {
      PowTimes(a, m, n - 1);
      PowAdd(a, m, m * (n - 1));
      PowStep(Pow(a, m), n - 1);
      assert m + m * (n - 1) == m * n;
    }
  }

  lemma {:induction false} PowOfOne(n: nat) ensures Pow(One, n) == One {
    if n > 0 { PowOfOne(n - 1); MulOne(One); }
  }

  lemma XTimeIsAlpha(a: Gf) ensures XTime(a) == Mul(Alpha, a)
  {
    hide *;
    MulXTimeLeft(One, a); MulOne(a); XTimeOne();
  }
  lemma XTimeOne() ensures XTime(One) == Alpha {}

  // One step of multiplication from the top bit down.
  function Horner(a: Gf, b0: Gf, f: Gf): Gf { Add(Sel(a, b0), XTime(f)) }
  // The recursion of multiplication written out.
  function MulFlat(a: Gf, b0: Gf): Gf {
    var b1 := Half(b0); var b2 := Half(b1); var b3 := Half(b2); var b4 := Half(b3);
    var b5 := Half(b4); var b6 := Half(b5); var b7 := Half(b6);
    Horner(a, b0, Horner(a, b1, Horner(a, b2, Horner(a, b3, Horner(a, b4, Horner(a, b5, Horner(a, b6, Horner(a, b7, Zero))))))))
  }
  // A byte has eight bits.
  lemma HalfEight(b0: Gf)
    ensures Half(Half(Half(Half(Half(Half(Half(Half(b0)))))))) == Zero
  {}

  lemma MulIsFlat(a: Gf, b0: Gf) ensures Mul(a, b0) == MulFlat(a, b0) {
    hide Mul, XTime, Half, Add, Sel;
    var b1 := Half(b0); var b2 := Half(b1); var b3 := Half(b2); var b4 := Half(b3);
    var b5 := Half(b4); var b6 := Half(b5); var b7 := Half(b6);
    HalfEight(b0);
    MulZero(a);
    MulStep(a, b7); MulStep(a, b6); MulStep(a, b5); MulStep(a, b4);
    MulStep(a, b3); MulStep(a, b2); MulStep(a, b1); MulStep(a, b0);
  }
}
