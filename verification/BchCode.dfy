// Bit strings as polynomials over GF(2^8), and products of linear factors with binary coefficients.
module BchCode {
  import opened Wrappers
  import opened Gf256
  import opened GfLog
  import opened Poly
  import opened Recurrence

  const N: nat := 255

  // ---------- binary polynomials, highest coefficient first ----------

  function Bit(b: bool): Gf { if b then One else Zero }

  function P(bits: seq<bool>): (h: seq<Gf>)
    ensures |h| == |bits| && forall i :: 0 <= i < |h| ==> h[i] == Bit(bits[i])
  {
    seq(|bits|, i requires 0 <= i < |bits| => Bit(bits[i]))
  }

  function XorBits(a: seq<bool>, b: seq<bool>): (r: seq<bool>)
    requires |a| == |b|
    ensures |r| == |a| && forall i :: 0 <= i < |r| ==> r[i] == (a[i] != b[i])
  {
    seq(|a|, i requires 0 <= i < |a| => a[i] != b[i])
  }

  function Falses(n: nat): (r: seq<bool>)
    ensures |r| == n && forall i :: 0 <= i < n ==> !r[i]
  {
    seq(n, i => false)
  }

  function Rev<T>(s: seq<T>): (r: seq<T>)
    ensures |r| == |s| && forall i :: 0 <= i < |s| ==> r[i] == s[|s| - 1 - i]
  {
    seq(|s|, i requires 0 <= i < |s| => s[|s| - 1 - i])
  }

  lemma BitXor(a: bool, b: bool) ensures Bit(a != b) == Add(Bit(a), Bit(b))
  {
    AddSelf(One); AddZero(One); AddZero(Zero);
  }

  lemma BitIsZero(a: bool) ensures Bit(a) == Zero <==> !a { ZeroNotOne(); }

  lemma BitSquare(a: bool) ensures Mul(Bit(a), Bit(a)) == Bit(a) { MulOne(One); MulZero(Zero); }

  lemma EvalXor(a: seq<bool>, b: seq<bool>, x: Gf)
    requires |a| == |b|
    ensures Eval(P(XorBits(a, b)), x) == Add(Eval(P(a), x), Eval(P(b), x))
  {
    hide Add, Eval, Bit;
    forall i | 0 <= i < |a| ensures P(XorBits(a, b))[i] == Sum(P(a), P(b))[i] { BitXor(a[i], b[i]); }
    assert P(XorBits(a, b)) == Sum(P(a), P(b));
    EvalSum(P(a), P(b), x);
  }

  lemma {:induction false} EvalConcat(a: seq<bool>, b: seq<bool>, x: Gf)
    ensures Eval(P(a + b), x) == Add(Mul(Pow(x, |b|), Eval(P(a), x)), Eval(P(b), x))
  {
    hide Add, Mul, Pow, Eval, Bit;
    if |b| == 0 {
      assert a + b == a;
      PowBase(x); MulOne(Eval(P(a), x)); EvalEmpty(x); AddZero(Eval(P(a), x));
      assert P(b) == [];
    } else {
      var n := |b| - 1;
      var b', c := b[..n], b[n];
      EvalConcat(a, b', x);
      assert P(a + b) == P(a + b') + [Bit(c)];
      assert P(b) == P(b') + [Bit(c)];
      EvalSnoc(P(a + b'), Bit(c), x);
      EvalSnoc(P(b'), Bit(c), x);
      var u := Mul(Pow(x, n), Eval(P(a), x));
      MulAddRight(x, u, Eval(P(b'), x));
      PowStep(x, n);
      MulAssoc(x, Pow(x, n), Eval(P(a), x));
      AddAssoc(Mul(x, u), Mul(x, Eval(P(b'), x)), Bit(c));
    }
  }

  // A binary polynomial commutes with squaring.
  lemma {:induction false} EvalFrobenius(a: seq<bool>, x: Gf)
    ensures Eval(P(a), Mul(x, x)) == Mul(Eval(P(a), x), Eval(P(a), x))
  {
    hide Add, Mul, Eval, Bit;
    if |a| == 0 {
      assert P(a) == [];
      EvalEmpty(Mul(x, x)); EvalEmpty(x); MulZero(Zero);
    } else {
      var n := |a| - 1;
      var b, c := a[..n], Bit(a[n]);
      EvalFrobenius(b, x);
      assert P(a) == P(b) + [c];
      EvalSnoc(P(b), c, x);
      EvalSnoc(P(b), c, Mul(x, x));
      var e := Eval(P(b), x);
      BitSquare(a[n]);
      SquareAdd(Mul(x, e), c);
      MulAssoc(x, x, Mul(e, e)); MulAssoc(x, e, e); MulComm(x, Mul(e, e)); MulSwap(x, e, Mul(x, e));
      SquareMul(x, e);
    }
  }

  lemma SquareMul(a: Gf, b: Gf)
    ensures Mul(Mul(a, b), Mul(a, b)) == Mul(Mul(a, a), Mul(b, b))
  {
    hide *;
    MulAssoc(a, b, Mul(a, b));
    MulSwap(b, a, b);
    MulAssoc(a, a, Mul(b, b));
  }

  // ---------- root products over sets closed under squaring have binary coefficients ----------

  function Square(p: seq<Gf>): (r: seq<Gf>)
    ensures |r| == |p| && forall i :: 0 <= i < |p| ==> r[i] == Mul(p[i], p[i])
  {
    seq(|p|, i requires 0 <= i < |p| => Mul(p[i], p[i]))
  }

  lemma {:induction false} EvalSquare(p: seq<Gf>, x: Gf)
    ensures Eval(Square(p), Mul(x, x)) == Mul(Eval(p, x), Eval(p, x))
  {
    hide Add, Mul, Eval;
    if |p| == 0 {
      assert Square(p) == [] && p == [];
      EvalEmpty(x); EvalEmpty(Mul(x, x)); MulZero(Zero);
    } else {
      var n := |p| - 1;
      var q, c := p[..n], p[n];
      EvalSquare(q, x);
      assert p == q + [c] && Square(p) == Square(q) + [Mul(c, c)];
      EvalSnoc(q, c, x);
      EvalSnoc(Square(q), Mul(c, c), Mul(x, x));
      SquareAdd(Mul(x, Eval(q, x)), c);
      SquareMul(x, Eval(q, x));
    }
  }

  ghost predicate ClosedUnderSquaring(xs: seq<Gf>) {
    forall i :: 0 <= i < |xs| ==> Mul(xs[i], xs[i]) in xs
  }

  predicate Binary(p: seq<Gf>) { forall i :: 0 <= i < |p| ==> p[i] == Zero || p[i] == One }

  lemma {:induction false} IteratedSquare(xs: seq<Gf>, x: Gf, k: nat) returns (y: Gf)
    requires ClosedUnderSquaring(xs) && x in xs
    ensures y in xs && y == Pow(x, TwoTo(k))
  {
    hide Mul, Pow;
    if k == 0 { y := x; PowBase(x); } else {
      var z := IteratedSquare(xs, x, k - 1);
      var i :| 0 <= i < |xs| && xs[i] == z;
      y := Mul(z, z);
      PowAdd(x, TwoTo(k - 1), TwoTo(k - 1));
    }
  }

  // Every root is the square of a root: squaring eight times is the identity.
  lemma SquareOnto(xs: seq<Gf>, x: Gf) returns (z: Gf)
    requires ClosedUnderSquaring(xs) && x in xs && x != Zero
    ensures z in xs && Mul(z, z) == x
  {
    hide Mul, Pow;
    z := IteratedSquare(xs, x, 7);
    assert TwoTo(7) == 128;
    PowAdd(x, 128, 128);
    InvMul(x);
    PowAdd(x, 254, 2); PowAdd(x, 1, 1); PowBase(x);
    MulAssoc(Inv(x), x, x); MulOne(x);
  }

  // p and its image under squaring agree on every root.
  lemma SquaredDifferenceVanishes(xs: seq<Gf>, x: Gf)
    requires ClosedUnderSquaring(xs) && x in xs && x != Zero
    ensures Eval(Sum(Square(Product(xs)), Product(xs)), x) == Zero
  {
    hide Add, Mul, Eval, Pow, Product, Sum, Square, ClosedUnderSquaring;
    var p := Product(xs);
    var z := SquareOnto(xs, x);
    ProductRoot(xs, x); ProductRoot(xs, z);
    EvalSquare(p, z);
    MulZero(Zero); AddZero(Zero);
    EvalSum(Square(p), p, x);
  }

  lemma DropLeadingZero(d: seq<Gf>, x: Gf)
    requires |d| >= 1 && d[0] == Zero
    ensures Eval(d[1..], x) == Eval(d, x)
  {
    hide Add, Mul, Eval, Pow;
    assert d == [Zero] + d[1..];
    EvalCons(Zero, d[1..], x);
    ZeroMul(Pow(x, |d[1..]|));
    AddZero(Eval(d[1..], x));
  }

  lemma ProductBinary(xs: seq<Gf>)
    requires Distinct(xs) && ClosedUnderSquaring(xs)
    requires forall i :: 0 <= i < |xs| ==> xs[i] != Zero
    ensures Binary(Product(xs))
  {
    hide Add, Mul, Eval, Pow, Product, ClosedUnderSquaring;
    var p := Product(xs);
    var d := Sum(Square(p), p);
    MulOne(One); AddSelf(One);
    forall i | 0 <= i < |xs| ensures Eval(d[1..], xs[i]) == Zero {
      SquaredDifferenceVanishes(xs, xs[i]);
      DropLeadingZero(d, xs[i]);
    }
    TooManyRoots(d[1..], xs);
    forall i | 0 <= i < |p| ensures p[i] == Zero || p[i] == One {
      assert d[i] == Zero by { if i > 0 { assert d[i] == d[1..][i - 1]; } }
      AddEqZero(Mul(p[i], p[i]), p[i]);
      SquareFixed(p[i]);
    }
  }
}
