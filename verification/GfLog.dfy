// Alpha, the class of x, is primitive: powers, logarithms and inverses.
module GfLog {
  import opened Gf256

  function A(n: nat): Gf { Pow(Alpha, n) }

  lemma Flat(m: nat, n: nat, x: Gf, y: Gf)
    requires Pow(Alpha, m) == x && Pow(Alpha, n) == y
    ensures Pow(Alpha, m + n) == MulFlat(x, y)
  {
    hide *;
    PowAdd(Alpha, m, n);
    MulIsFlat(x, y);
  }

  lemma FlatValues()
    ensures Alpha == Gf(2)
    ensures MulFlat(Gf(2), Gf(2)) == Gf(4)
    ensures MulFlat(Gf(4), Gf(4)) == Gf(0x10)
    ensures MulFlat(Gf(0x10), Gf(0x10)) == Gf(0x1d)
    ensures MulFlat(Gf(0x1d), Gf(0x1d)) == Gf(0x4c)
    ensures MulFlat(Gf(0x4c), Gf(2)) == Gf(0x98)
    ensures MulFlat(Gf(0x98), Gf(0x98)) == Gf(0x4e)
    ensures MulFlat(Gf(0x4e), Gf(0x98)) == Gf(0x0a)
    ensures MulFlat(Gf(0x4e), Gf(0x4e)) == Gf(0x99)
    ensures MulFlat(Gf(0x99), Gf(0x98)) == Gf(0xd6)
    ensures MulFlat(Gf(0xd6), Gf(0xd6)) == Gf(0xd7)
    ensures MulFlat(Gf(0xd7), Gf(0xd6)) == One
  {}

  lemma AlphaValues()
    ensures Pow(Alpha, 16) == Gf(0x4c)
    ensures Pow(Alpha, 51) == Gf(0x0a)
    ensures Pow(Alpha, 85) == Gf(0xd6)
    ensures Pow(Alpha, 255) == One
  {
    hide *;
    FlatValues();
    PowBase(Alpha);
    Flat(1, 1, Gf(2), Gf(2));
    Flat(2, 2, Gf(4), Gf(4));
    Flat(4, 4, Gf(0x10), Gf(0x10));
    Flat(8, 8, Gf(0x1d), Gf(0x1d));
    Flat(16, 1, Gf(0x4c), Gf(2));
    Flat(17, 17, Gf(0x98), Gf(0x98));
    Flat(34, 17, Gf(0x4e), Gf(0x98));
    Flat(34, 34, Gf(0x4e), Gf(0x4e));
    Flat(68, 17, Gf(0x99), Gf(0x98));
    Flat(85, 85, Gf(0xd6), Gf(0xd6));
    Flat(170, 85, Gf(0xd7), Gf(0xd6));
  }

  // ---------- the order of alpha is exactly 255 ----------

  lemma AlphaOrder15()
    ensures Pow(Alpha, 15) != One
  {
    hide *;
    AlphaValues(); FlatValues();
    PowStep(Alpha, 15);
    if Pow(Alpha, 15) == One { MulOne(Alpha); }
  }

  lemma PowPeriodic(n: nat, k: nat)
    ensures Pow(Alpha, n + 255 * k) == Pow(Alpha, n)
  {
    hide *;
    AlphaValues();
    PowAdd(Alpha, n, 255 * k);
    PowTimes(Alpha, 255, k);
    PowOfOne(k);
    MulOne(Pow(Alpha, n));
  }

  lemma PowMod(n: nat)
    ensures Pow(Alpha, n) == Pow(Alpha, n % 255)
  {
    hide *;
    PowPeriodic(n % 255, n / 255);
  }

  lemma Bezout(i: nat, p: nat, q: nat, u: nat, e: nat)
    requires p * q == 255 && u * i == 1 + p * e
    ensures i * (u * q) == q + 255 * e
  {
    assert i * (u * q) == (u * i) * q;
    assert (1 + p * e) * q == q + (p * q) * e;
  }

  // If alpha^i = 1 and u*i = 1 + p*e with p*q = 255, then alpha^q = 1.
  lemma OrderDivides(i: nat, p: nat, q: nat, u: nat, e: nat)
    requires p * q == 255 && u * i == 1 + p * e
    requires Pow(Alpha, i) == One
    ensures Pow(Alpha, q) == One
  {
    hide *;
    PowTimes(Alpha, i, u * q);
    PowOfOne(u * q);
    Bezout(i, p, q, u, e);
    PowPeriodic(q, e);
  }

  const INVERSE_17: seq<nat> := [0, 1, 9, 6, 13, 7, 3, 5, 15, 2, 12, 14, 10, 4, 11, 8, 16]

  lemma Inverse17(r: nat)
    requires 0 < r < 17
    ensures |INVERSE_17| == 17 && (INVERSE_17[r] * r) % 17 == 1
  {}

  lemma ModInverse(i: nat, p: nat, u: nat) returns (e: nat)
    requires p > 1 && (u * (i % p)) % p == 1
    ensures u * i == 1 + p * e
  {
    var k, r := i / p, i % p;
    var c := (u * r) / p;
    e := u * k + c;
    MulDistribute(u, p, k, r);
    MulDistribute(p, u, k, c);
  }

  lemma MulDistribute(u: int, p: int, k: int, r: int)
    ensures u * (p * k + r) == p * (u * k) + u * r
  {}

  lemma NotOrder3(i: nat)
    requires i % 3 != 0
    ensures Pow(Alpha, i) != One
  {
    hide *;
    if Pow(Alpha, i) == One {
      var u := i % 3;
      assert (u * u) % 3 == 1;
      var e := ModInverse(i, 3, u);
      OrderDivides(i, 3, 85, u, e);
      AlphaValues(); OneValue();
    }
  }

  lemma NotOrder5(i: nat)
    requires i % 5 != 0
    ensures Pow(Alpha, i) != One
  {
    hide *;
    if Pow(Alpha, i) == One {
      var r := i % 5;
      var u := if r == 1 then 1 else if r == 2 then 3 else if r == 3 then 2 else 4;
      assert (u * r) % 5 == 1;
      var e := ModInverse(i, 5, u);
      OrderDivides(i, 5, 51, u, e);
      AlphaValues(); OneValue();
    }
  }

  lemma NotOrder17(i: nat)
    requires i % 17 != 0
    ensures Pow(Alpha, i) != One
  {
    hide *;
    if Pow(Alpha, i) == One {
      var r := i % 17;
      Inverse17(r);
      var e := ModInverse(i, 17, INVERSE_17[r]);
      OrderDivides(i, 17, 15, INVERSE_17[r], e);
      AlphaOrder15();
    }
  }

  // alpha is primitive: no smaller positive power of it is 1.
  lemma AlphaOrder(i: nat)
    requires 0 < i < 255
    ensures Pow(Alpha, i) != One
  {
    hide *;
    if i % 3 != 0 { NotOrder3(i); }
    else if i % 5 != 0 { NotOrder5(i); }
    else if i % 17 != 0 { NotOrder17(i); }
    else { assert false; }
  }

  lemma OneValue() ensures One == Gf(1) {}

  lemma PowNonZero(n: nat)
    ensures Pow(Alpha, n) != Zero
  {
    hide *;
    var k := n % 255;
    PowMod(n);
    AlphaValues();
    PowAdd(Alpha, k, 255 - k);
    ZeroMul(Pow(Alpha, 255 - k));
    ZeroNotOne();
  }

  lemma ZeroNotOne() ensures Zero != One {}

  lemma PowInjective(i: nat, j: nat)
    requires i < 255 && j < 255 && Pow(Alpha, i) == Pow(Alpha, j)
    ensures i == j
  {
    hide *;
    if i < j { PowInjectiveLess(i, j); }
    if j < i { PowInjectiveLess(j, i); }
  }

  lemma PowInjectiveLess(i: nat, j: nat)
    requires i < j < 255
    ensures Pow(Alpha, i) != Pow(Alpha, j)
  {
    hide *;
    if Pow(Alpha, i) == Pow(Alpha, j) {
      AlphaValues();
      PowAdd(Alpha, 255 - i, i);
      PowAdd(Alpha, 255 - i, j);
      assert 255 - i + j == (j - i) + 255 * 1;
      PowPeriodic(j - i, 1);
      AlphaOrder(j - i);
    }
  }

  // ---------- every non-zero element is a power of alpha ----------

  ghost function Powers(n: nat): set<Gf> { set i: nat | i < n :: Pow(Alpha, i) }

  lemma {:induction false} PowersSize(n: nat)
    requires n <= 255
    ensures |Powers(n)| == n
  {
    if n == 0 { assert Powers(0) == {}; } else {
      PowersSize(n - 1);
      var x := Pow(Alpha, n - 1);
      assert Powers(n) == Powers(n - 1) + {x};
      if x in Powers(n - 1) {
        var i: nat :| i < n - 1 && Pow(Alpha, i) == x;
        PowInjective(i, n - 1);
      }
    }
  }

  function FromInt(i: nat): Gf { if i < 256 then Gf(i as bv8) else Zero }

  ghost function UpTo(n: nat): set<Gf> { set i: nat | 1 <= i <= n :: FromInt(i) }

  lemma {:induction false} UpToSize(n: nat)
    ensures |UpTo(n)| <= n
  {
    hide FromInt;
    if n == 0 { assert UpTo(0) == {}; } else {
      UpToSize(n - 1);
      assert UpTo(n) == UpTo(n - 1) + {FromInt(n)};
    }
  }

  lemma InUpTo(a: Gf)
    requires a != Zero
    ensures a in UpTo(255)
  {
    var i := a.bits as int;
    assert i as bv8 == a.bits;
    assert i != 0;
    assert FromInt(i) == a;
  }

  lemma SubsetFull<T>(a: set<T>, b: set<T>)
    requires a <= b && |a| >= |b|
    ensures a == b
  {
    var c := b - a;
    assert b == a + c;
    assert |b| == |a| + |c|;
    assert c == {};
  }

  ghost function Log(a: Gf): (i: nat)
    requires a != Zero
    ensures i < 255 && Pow(Alpha, i) == a
  {
    LogExists(a);
    var i: nat :| i < 255 && Pow(Alpha, i) == a;
    i
  }

  lemma LogExists(a: Gf)
    requires a != Zero
    ensures exists i: nat :: i < 255 && Pow(Alpha, i) == a
  {
    PowersSize(255);
    UpToSize(255);
    forall x | x in Powers(255) ensures x in UpTo(255) {
      var i: nat :| i < 255 && Pow(Alpha, i) == x;
      PowNonZero(i);
      InUpTo(x);
    }
    SubsetFull(Powers(255), UpTo(255));
    InUpTo(a);
  }

  // ---------- inverses ----------

  function Inv(a: Gf): Gf { Pow(a, 254) }

  lemma InvMul(a: Gf)
    requires a != Zero
    ensures Mul(a, Inv(a)) == One && Mul(Inv(a), a) == One
  {
    hide Mul, Pow;
    var i := Log(a);
    PowStep(a, 254);
    PowTimes(Alpha, i, 255);
    PowTimes(Alpha, 255, i);
    AlphaValues();
    PowOfOne(i);
    MulComm(a, Inv(a));
  }

  lemma MulNonZero(a: Gf, b: Gf)
    requires a != Zero && b != Zero
    ensures Mul(a, b) != Zero
  {
    hide *;
    InvMul(a);
    if Mul(a, b) == Zero {
      MulAssoc(Inv(a), a, b); MulOne(b); MulZero(Inv(a));
    }
  }

  lemma MulCancel(a: Gf, b: Gf, c: Gf)
    requires a != Zero && Mul(a, b) == Mul(a, c)
    ensures b == c
  {
    hide *;
    MulAddRight(a, b, c);
    AddEqZero(Mul(a, b), Mul(a, c));
    AddEqZero(b, c);
    if Add(b, c) != Zero { MulNonZero(a, Add(b, c)); }
  }

  lemma SquareFixed(c: Gf)
    requires Mul(c, c) == c
    ensures c == Zero || c == One
  {
    hide *;
    if c != Zero { MulOne(c); MulCancel(c, c, One); }
  }

  lemma SquareAdd(a: Gf, b: Gf)
    ensures Mul(Add(a, b), Add(a, b)) == Add(Mul(a, a), Mul(b, b))
  {
    hide *;
    MulAddLeft(a, b, Add(a, b));
    MulAddRight(a, a, b);
    MulAddRight(b, a, b);
    MulComm(a, b);
    AddComm(Mul(a, b), Mul(b, b));
    AddShuffle(Mul(a, a), Mul(a, b), Mul(b, b), Mul(a, b));
    AddSelf(Mul(a, b));
    AddZero(Add(Mul(a, a), Mul(b, b)));
  }

  lemma {:induction false} SquarePow(n: nat)
    ensures Mul(Pow(Alpha, n), Pow(Alpha, n)) == Pow(Alpha, 2 * n)
  {
    hide *;
    PowAdd(Alpha, n, n);
  }
}
