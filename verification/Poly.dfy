// Polynomials over GF(2^8), written highest coefficient first.
module Poly {
  import opened Gf256
  import opened GfLog

  // ---------- evaluation (Horner) ----------

  function Eval(h: seq<Gf>, x: Gf): Gf {
    if |h| == 0 then Zero else Add(Mul(x, Eval(h[..|h| - 1], x)), h[|h| - 1])
  }

  function Sum(a: seq<Gf>, b: seq<Gf>): (r: seq<Gf>)
    requires |a| == |b|
    ensures |r| == |a| && forall i :: 0 <= i < |r| ==> r[i] == Add(a[i], b[i])
  {
    seq(|a|, i requires 0 <= i < |a| => Add(a[i], b[i]))
  }

  function Scale(c: Gf, a: seq<Gf>): (r: seq<Gf>)
    ensures |r| == |a| && forall i :: 0 <= i < |r| ==> r[i] == Mul(c, a[i])
  {
    seq(|a|, i requires 0 <= i < |a| => Mul(c, a[i]))
  }

  function Zeros(n: nat): (r: seq<Gf>)
    ensures |r| == n && forall i :: 0 <= i < n ==> r[i] == Zero
  {
    seq(n, i => Zero)
  }

  predicate AllZero(h: seq<Gf>) { forall i :: 0 <= i < |h| ==> h[i] == Zero }

  predicate Distinct(xs: seq<Gf>) { forall i, j :: 0 <= i < j < |xs| ==> xs[i] != xs[j] }

  lemma EvalSnoc(h: seq<Gf>, c: Gf, x: Gf)
    ensures Eval(h + [c], x) == Add(Mul(x, Eval(h, x)), c)
  {
    hide Add, Mul;
    assert (h + [c])[..|h|] == h;
  }

  lemma EvalEmpty(x: Gf) ensures Eval([], x) == Zero {}

  lemma {:induction false} EvalSum(a: seq<Gf>, b: seq<Gf>, x: Gf)
    requires |a| == |b|
    ensures Eval(Sum(a, b), x) == Add(Eval(a, x), Eval(b, x))
  {
    hide Add, Mul;
    if |a| == 0 { AddZero(Zero); } else {
      var n := |a| - 1;
      var a', b' := a[..n], b[..n];
      EvalSum(a', b', x);
      assert Sum(a, b)[..n] == Sum(a', b');
      MulAddRight(x, Eval(a', x), Eval(b', x));
      AddShuffle(Mul(x, Eval(a', x)), Mul(x, Eval(b', x)), a[n], b[n]);
    }
  }

  lemma {:induction false} EvalScale(c: Gf, a: seq<Gf>, x: Gf)
    ensures Eval(Scale(c, a), x) == Mul(c, Eval(a, x))
  {
    hide Add, Mul;
    if |a| == 0 { MulZero(c); } else {
      var n := |a| - 1;
      EvalScale(c, a[..n], x);
      assert Scale(c, a)[..n] == Scale(c, a[..n]);
      var e := Eval(a[..n], x);
      MulAddRight(c, Mul(x, e), a[n]);
      MulSwap(c, x, e);
    }
  }

  lemma MulSwap(a: Gf, b: Gf, c: Gf)
    ensures Mul(a, Mul(b, c)) == Mul(b, Mul(a, c))
  {
    hide *;
    MulAssoc(a, b, c); MulAssoc(b, a, c); MulComm(a, b);
  }

  lemma {:induction false} EvalAllZero(h: seq<Gf>, x: Gf)
    requires AllZero(h)
    ensures Eval(h, x) == Zero
  {
    hide Add, Mul;
    if |h| > 0 {
      EvalAllZero(h[..|h| - 1], x);
      MulZero(x); AddZero(Zero);
    }
  }

  // Trailing zeros multiply by a power of x.
  lemma {:induction false} EvalPad(h: seq<Gf>, k: nat, x: Gf)
    ensures Eval(h + Zeros(k), x) == Mul(Pow(x, k), Eval(h, x))
  {
    hide Add, Mul, Pow;
    if k == 0 {
      assert h + Zeros(0) == h;
      PowBase(x); MulOne(Eval(h, x));
    } else {
      EvalPad(h, k - 1, x);
      assert h + Zeros(k) == (h + Zeros(k - 1)) + [Zero];
      EvalSnoc(h + Zeros(k - 1), Zero, x);
      var e := Eval(h + Zeros(k - 1), x);
      AddZero(Mul(x, e));
      PowStep(x, k - 1);
      MulAssoc(x, Pow(x, k - 1), Eval(h, x));
    }
  }

  lemma {:induction false} EvalCons(c: Gf, h: seq<Gf>, x: Gf)
    ensures Eval([c] + h, x) == Add(Mul(c, Pow(x, |h|)), Eval(h, x))
  {
    hide Add, Mul, Pow;
    var g := [c] + h;
    if |h| == 0 {
      assert g == [] + [c];
      EvalSnoc([], c, x); EvalEmpty(x);
      MulZero(x); AddZero(c); PowBase(x); MulOne(c);
    } else {
      var n := |h| - 1;
      var h', d := h[..n], h[n];
      EvalCons(c, h', x);
      assert g == ([c] + h') + [d];
      EvalSnoc([c] + h', d, x);
      assert h == h' + [d];
      EvalSnoc(h', d, x);
      var u := Mul(c, Pow(x, n));
      MulAddRight(x, u, Eval(h', x));
      MulSwap(x, c, Pow(x, n));
      PowStep(x, n);
      AddAssoc(Mul(x, u), Mul(x, Eval(h', x)), d);
    }
  }

  // ---------- a polynomial of length n with n distinct roots is zero ----------

  // The quotient of h by (x + a), by synthetic division.
  function Quotient(h: seq<Gf>, a: Gf): (q: seq<Gf>)
    requires |h| >= 1
    ensures |q| == |h| - 1
  {
    if |h| == 1 then [] else Quotient(h[..|h| - 1], a) + [Eval(h[..|h| - 1], a)]
  }

  lemma {:induction false} QuotientCorrect(h: seq<Gf>, a: Gf, x: Gf)
    requires |h| >= 1
    ensures Add(Eval(h, x), Eval(h, a)) == Mul(Add(x, a), Eval(Quotient(h, a), x))
  {
    hide Add, Mul;
    var n := |h| - 1;
    var g, c := h[..n], h[n];
    var gx, ga := Eval(g, x), Eval(g, a);
    assert Eval(h, x) == Add(Mul(x, gx), c) && Eval(h, a) == Add(Mul(a, ga), c);
    AddShuffle(Mul(x, gx), c, Mul(a, ga), c);
    AddSelf(c);
    AddZero(Add(Mul(x, gx), Mul(a, ga)));
    assert Add(Eval(h, x), Eval(h, a)) == Add(Mul(x, gx), Mul(a, ga));
    if n == 0 {
      MulZero(x); MulZero(a); AddZero(Zero); MulZero(Add(x, a));
    } else {
      QuotientCorrect(g, a, x);
      var q := Eval(Quotient(g, a), x);
      EvalSnoc(Quotient(g, a), ga, x);
      QuotientStep(x, a, gx, ga, q);
    }
  }

  lemma QuotientStep(x: Gf, a: Gf, gx: Gf, ga: Gf, q: Gf)
    requires Add(gx, ga) == Mul(Add(x, a), q)
    ensures Add(Mul(x, gx), Mul(a, ga)) == Mul(Add(x, a), Add(Mul(x, q), ga))
  {
    hide *;
    var d := Add(x, a);
    MulAddRight(d, Mul(x, q), ga);
    MulSwap(d, x, q);
    MulAddRight(x, gx, ga);
    MulAddLeft(x, a, ga);
    // (x gx + x ga) + (x ga + a ga) = x gx + a ga
    AddAssoc(Mul(x, gx), Mul(x, ga), Add(Mul(x, ga), Mul(a, ga)));
    AddAssoc(Mul(x, ga), Mul(x, ga), Mul(a, ga));
    AddSelf(Mul(x, ga));
    AddZero(Mul(a, ga));
  }

  lemma {:induction false} QuotientZero(h: seq<Gf>, a: Gf)
    requires |h| >= 1 && AllZero(Quotient(h, a)) && Eval(h, a) == Zero
    ensures AllZero(h)
  {
    hide Add, Mul;
    var n := |h| - 1;
    var g, c := h[..n], h[n];
    if n == 0 {
      MulZero(a); AddZero(c);
    } else {
      var q := Quotient(h, a);
      assert q[n - 1] == Eval(g, a);
      assert Quotient(g, a) == q[..n - 1];
      QuotientZero(g, a);
      MulZero(a); AddZero(c);
    }
  }

  lemma {:induction false} TooManyRoots(h: seq<Gf>, xs: seq<Gf>)
    requires |xs| >= |h| && Distinct(xs)
    requires forall i :: 0 <= i < |xs| ==> Eval(h, xs[i]) == Zero
    ensures AllZero(h)
    decreases |h|
  {
    hide Add, Mul, Quotient, Eval;
    if |h| > 0 {
      var a := xs[0];
      var q := Quotient(h, a);
      forall i | 1 <= i < |xs| ensures Eval(q, xs[i]) == Zero {
        QuotientCorrect(h, a, xs[i]);
        AddZero(Zero);
        AddEqZero(xs[i], a);
        if Eval(q, xs[i]) != Zero { MulNonZero(Add(xs[i], a), Eval(q, xs[i])); }
      }
      var ys := xs[1..];
      forall i | 0 <= i < |ys| ensures Eval(q, ys[i]) == Zero { assert ys[i] == xs[i + 1]; }
      TooManyRoots(q, ys);
      QuotientZero(h, a);
    }
  }

  // ---------- products of linear factors ----------

  // (x + a) * h(x)
  function MulRoot(h: seq<Gf>, a: Gf): (r: seq<Gf>)
    ensures |r| == |h| + 1
  {
    Sum(h + [Zero], [Zero] + Scale(a, h))
  }

  lemma EvalMulRoot(h: seq<Gf>, a: Gf, x: Gf)
    ensures Eval(MulRoot(h, a), x) == Mul(Add(x, a), Eval(h, x))
  {
    hide Add, Mul, Eval, Pow;
    EvalSum(h + [Zero], [Zero] + Scale(a, h), x);
    EvalSnoc(h, Zero, x);
    AddZero(Mul(x, Eval(h, x)));
    EvalCons(Zero, Scale(a, h), x);
    ZeroMul(Pow(x, |h|));
    AddZero(Eval(Scale(a, h), x));
    EvalScale(a, h, x);
    MulAddLeft(x, a, Eval(h, x));
  }

  // The monic polynomial whose roots are xs.
  function Product(xs: seq<Gf>): (r: seq<Gf>)
    ensures |r| == |xs| + 1 && r[0] == One
  {
    if |xs| == 0 then [One] else
      var p := Product(xs[..|xs| - 1]);
      LeadingOne(p, xs[|xs| - 1]);
      MulRoot(p, xs[|xs| - 1])
  }

  lemma LeadingOne(p: seq<Gf>, a: Gf)
    requires |p| >= 1
    ensures MulRoot(p, a)[0] == p[0]
  {
    AddZero(p[0]);
  }

  lemma {:induction false} ProductRoot(xs: seq<Gf>, x: Gf)
    ensures Eval(Product(xs), x) == Zero <==> x in xs
  {
    hide Add, Mul, Eval, MulRoot;
    if |xs| == 0 {
      assert Product(xs) == [] + [One];
      EvalSnoc([], One, x); EvalEmpty(x); MulZero(x); AddZero(One); ZeroNotOne();
    } else {
      var n := |xs| - 1;
      var ys, a := xs[..n], xs[n];
      assert xs == ys + [a];
      ProductRoot(ys, x);
      var p := Product(ys);
      EvalMulRoot(p, a, x);
      AddEqZero(x, a);
      if x == a { ZeroMul(Eval(p, x)); }
      else if Eval(p, x) == Zero { MulZero(Add(x, a)); }
      else { MulNonZero(Add(x, a), Eval(p, x)); }
    }
  }

  // ---------- weighted power sums (the Vandermonde argument) ----------

  function WeightedSum(cs: seq<Gf>, xs: seq<Gf>, s: nat): Gf
    requires |cs| == |xs|
  {
    if |xs| == 0 then Zero else
      var n := |xs| - 1;
      Add(WeightedSum(cs[..n], xs[..n], s), Mul(cs[n], Pow(xs[n], s)))
  }

  // Weights after eliminating x: c_l * (x_l + x)
  function Eliminate(cs: seq<Gf>, xs: seq<Gf>, x: Gf): (r: seq<Gf>)
    requires |cs| == |xs|
    ensures |r| == |cs| && forall i :: 0 <= i < |r| ==> r[i] == Mul(cs[i], Add(xs[i], x))
  {
    seq(|cs|, i requires 0 <= i < |cs| => Mul(cs[i], Add(xs[i], x)))
  }

  lemma {:induction false} EliminateSum(cs: seq<Gf>, xs: seq<Gf>, x: Gf, s: nat)
    requires |cs| == |xs|
    ensures WeightedSum(Eliminate(cs, xs, x), xs, s) ==
            Add(WeightedSum(cs, xs, s + 1), Mul(x, WeightedSum(cs, xs, s)))
  {
    hide Add, Mul, Pow;
    if |xs| == 0 {
      MulZero(x); AddZero(Zero);
    } else {
      var n := |xs| - 1;
      var ds, ys, c, y := cs[..n], xs[..n], cs[n], xs[n];
      EliminateSum(ds, ys, x, s);
      assert Eliminate(cs, xs, x)[..n] == Eliminate(ds, ys, x);
      var u, v := WeightedSum(ds, ys, s + 1), WeightedSum(ds, ys, s);
      var p := Pow(y, s);
      PowStep(y, s);
      EliminateTerm(c, x, y, p);
      MulAddRight(x, v, Mul(c, p));
      AddShuffle(u, Mul(x, v), Mul(c, Mul(y, p)), Mul(x, Mul(c, p)));
    }
  }

  lemma EliminateTerm(c: Gf, x: Gf, y: Gf, p: Gf)
    ensures Mul(Mul(c, Add(y, x)), p) == Add(Mul(c, Mul(y, p)), Mul(x, Mul(c, p)))
  {
    hide *;
    MulAssoc(c, Add(y, x), p);
    MulAddLeft(y, x, p);
    MulAddRight(c, Mul(y, p), Mul(x, p));
    MulSwap(c, x, p);
  }

  // If the weighted power sums with exponents 1..w vanish, every weight is zero.
  lemma {:induction false} WeightsVanish(cs: seq<Gf>, xs: seq<Gf>)
    requires |cs| == |xs| && Distinct(xs)
    requires forall i :: 0 <= i < |xs| ==> xs[i] != Zero
    requires forall s :: 1 <= s <= |xs| ==> WeightedSum(cs, xs, s) == Zero
    ensures AllZero(cs)
    decreases |cs|
  {
    hide Add, Mul, Pow, WeightedSum;
    if |cs| > 0 {
      var n := |xs| - 1;
      var x := xs[n];
      var es := Eliminate(cs, xs, x);
      forall s | 1 <= s <= n ensures WeightedSum(es[..n], xs[..n], s) == Zero {
        EliminateSum(cs, xs, x, s);
        MulZero(x); AddZero(Zero);
        AddSelf(x); MulZero(cs[n]);
        WeightedSumDropZero(es, xs, s);
      }
      WeightsVanish(es[..n], xs[..n]);
      forall i | 0 <= i < n ensures cs[i] == Zero {
        assert es[..n][i] == Mul(cs[i], Add(xs[i], x));
        AddEqZero(xs[i], x);
        if cs[i] != Zero { MulNonZero(cs[i], Add(xs[i], x)); }
      }
      WeightedSumZero(cs[..n], xs[..n], 1);
      WeightedSumLast(cs, xs, 1);
      AddZero(Mul(cs[n], Pow(x, 1)));
      PowBase(x);
      if cs[n] != Zero { MulNonZero(cs[n], x); }
    }
  }

  lemma WeightedSumLast(cs: seq<Gf>, xs: seq<Gf>, s: nat)
    requires |cs| == |xs| > 0
    ensures var n := |xs| - 1;
            WeightedSum(cs, xs, s) == Add(WeightedSum(cs[..n], xs[..n], s), Mul(cs[n], Pow(xs[n], s)))
  {}

  lemma WeightedSumDropZero(cs: seq<Gf>, xs: seq<Gf>, s: nat)
    requires |cs| == |xs| > 0 && cs[|xs| - 1] == Zero
    ensures WeightedSum(cs, xs, s) == WeightedSum(cs[..|xs| - 1], xs[..|xs| - 1], s)
  {
    hide *;
    WeightedSumLast(cs, xs, s);
    ZeroMul(Pow(xs[|xs| - 1], s));
    AddZero(WeightedSum(cs[..|xs| - 1], xs[..|xs| - 1], s));
  }

  lemma {:induction false} WeightedSumZero(cs: seq<Gf>, xs: seq<Gf>, s: nat)
    requires |cs| == |xs| && AllZero(cs)
    ensures WeightedSum(cs, xs, s) == Zero
  {
    hide Mul, Add, Pow, WeightedSum;
    if |cs| > 0 {
      WeightedSumDropZero(cs, xs, s);
      WeightedSumZero(cs[..|cs| - 1], xs[..|cs| - 1], s);
    } else { WeightedSumEmpty(s); }
  }

  lemma WeightedSumEmpty(s: nat) ensures WeightedSum([], [], s) == Zero {}
}
