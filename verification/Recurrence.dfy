// Linear recurrences and Massey's bound.
module Recurrence {
  import opened Gf256
  import opened GfLog
  import opened Poly

  type Series = int -> Gf

  // The coefficient of x^j in p(x) * f(x), where p[i] is the coefficient of x^i.
  function Conv(p: seq<Gf>, f: Series, j: int): Gf {
    if |p| == 0 then Zero else
      var n := |p| - 1;
      Add(Conv(p[..n], f, j), Mul(p[n], f(j - n)))
  }

  lemma ConvSnoc(p: seq<Gf>, c: Gf, f: Series, j: int)
    ensures Conv(p + [c], f, j) == Add(Conv(p, f, j), Mul(c, f(j - |p|)))
  {
    hide Add, Mul;
    assert (p + [c])[..|p|] == p;
  }

  lemma {:induction false} ConvZeros(p: seq<Gf>, k: nat, f: Series, j: int)
    ensures Conv(p + Zeros(k), f, j) == Conv(p, f, j)
  {
    hide Add, Mul, Conv;
    if k == 0 { assert p + Zeros(0) == p; } else {
      ConvZeros(p, k - 1, f, j);
      assert p + Zeros(k) == (p + Zeros(k - 1)) + [Zero];
      ConvSnoc(p + Zeros(k - 1), Zero, f, j);
      ZeroMul(f(j - |p + Zeros(k - 1)|)); AddZero(Conv(p, f, j));
    }
  }

  lemma {:induction false} ConvUpdate(p: seq<Gf>, k: nat, v: Gf, f: Series, j: int)
    requires k < |p|
    ensures Conv(p[k := Add(p[k], v)], f, j) == Add(Conv(p, f, j), Mul(v, f(j - k)))
  {
    hide Add, Mul;
    var n := |p| - 1;
    var p2 := p[k := Add(p[k], v)];
    if k == n {
      assert p2[..n] == p[..n];
      MulAddLeft(p[n], v, f(j - n));
      AddAssoc(Conv(p[..n], f, j), Mul(p[n], f(j - n)), Mul(v, f(j - n)));
    } else {
      assert p2[..n] == p[..n][k := Add(p[..n][k], v)];
      ConvUpdate(p[..n], k, v, f, j);
      var u, w, z := Conv(p[..n], f, j), Mul(v, f(j - k)), Mul(p[n], f(j - n));
      AddAssoc(u, w, z); AddComm(w, z); AddAssoc(u, z, w);
    }
  }

  // Convolution is linear in the series and commutes with shifts.
  lemma {:induction false} ConvLinear(q: seq<Gf>, f: Series, g: Series, c: Gf, n: int, h: Series, r: int)
    requires forall k :: h(k) == Add(f(k), Mul(c, g(k - n)))
    ensures Conv(q, h, r) == Add(Conv(q, f, r), Mul(c, Conv(q, g, r - n)))
  {
    hide Add, Mul;
    if |q| == 0 { MulZero(c); AddZero(Zero); } else {
      var l := |q| - 1;
      ConvLinear(q[..l], f, g, c, n, h, r);
      var a, b := f(r - l), g(r - n - l);
      assert h(r - l) == Add(a, Mul(c, g(r - l - n)));
      assert r - l - n == r - n - l;
      MulAddRight(q[l], a, Mul(c, b));
      MulSwap(q[l], c, b);
      MulAddRight(c, Conv(q[..l], g, r - n), Mul(q[l], b));
      AddShuffle(Conv(q[..l], f, r), Mul(c, Conv(q[..l], g, r - n)), Mul(q[l], a), Mul(c, Mul(q[l], b)));
    }
  }

  function ConvSeries(p: seq<Gf>, f: Series): Series { j => Conv(p, f, j) }

  lemma {:induction false} ConvOfZero(q: seq<Gf>, f: Series, r: int)
    requires forall k :: r - |q| < k <= r ==> f(k) == Zero
    ensures Conv(q, f, r) == Zero
  {
    hide Add, Mul;
    if |q| > 0 {
      ConvOfZero(q[..|q| - 1], f, r);
      MulZero(q[|q| - 1]); AddZero(Zero);
    }
  }

  // If only the leading tap sees a non-zero value, the convolution is that value.
  lemma {:induction false} ConvHead(p: seq<Gf>, f: Series, r: int)
    requires |p| >= 1 && p[0] == One
    requires forall k :: r - |p| < k < r ==> f(k) == Zero
    ensures Conv(p, f, r) == f(r)
  {
    hide Add, Mul;
    var n := |p| - 1;
    if n == 0 {
      assert Conv(p[..0], f, r) == Zero;
      MulOne(f(r)); AddZero(f(r));
    } else {
      ConvHead(p[..n], f, r);
      MulZero(p[n]); AddZero(f(r));
    }
  }

  lemma {:induction false} ConvCommute(p: seq<Gf>, q: seq<Gf>, f: Series, r: int)
    ensures Conv(p, ConvSeries(q, f), r) == Conv(q, ConvSeries(p, f), r)
    decreases |p|
  {
    hide Add, Mul;
    if |p| == 0 {
      ConvOfZero(q, ConvSeries(p, f), r);
    } else {
      var n := |p| - 1;
      var p', c := p[..n], p[n];
      ConvCommute(p', q, f, r);
      ConvLinear(q, ConvSeries(p', f), f, c, n, ConvSeries(p, f), r);
    }
  }

  // Recurrence c of length l produces the first r values of f.
  ghost predicate Generates(c: seq<Gf>, l: nat, f: Series, r: nat) {
    1 <= |c| <= l + 1 && c[0] == One && forall j :: l <= j < r ==> Conv(c, f, j) == Zero
  }

  // Massey's bound: if a length-l recurrence produces r values and fails on the next one, any recurrence
  // that produces all r + 1 has length at least r + 1 - l.
  lemma {:induction false} MasseyBound(c: seq<Gf>, l: nat, c': seq<Gf>, l': nat, f: Series, r: nat)
    requires Generates(c, l, f, r) && Conv(c, f, r) != Zero
    requires Generates(c', l', f, r + 1)
    ensures l + l' >= r + 1
  {
    hide Add, Mul, Conv;
    if l + l' <= r {
      var s, s' := ConvSeries(c, f), ConvSeries(c', f);
      ConvHead(c', s, r);
      ConvOfZero(c, s', r);
      ConvCommute(c', c, f, r);
    }
  }

  // The next recurrence cancels the discrepancy and keeps the earlier zeros.
  lemma CorrectedStep(lambda: seq<Gf>, l: nat, prev: seq<Gf>, lp: nat, m: nat, b: Gf, next: seq<Gf>, lnext: nat, f: Series, r: nat)
    requires Generates(lambda, l, f, r) && b != Zero
    requires 1 <= m <= r
    requires lp <= r - m && Conv(prev, f, r - m) == b
    requires forall j :: lp <= j < r - m ==> Conv(prev, f, j) == Zero
    requires 1 <= |next| <= lnext + 1 && next[0] == One
    requires forall j :: Conv(next, f, j) == Add(Conv(lambda, f, j), Mul(Mul(Conv(lambda, f, r), Inv(b)), Conv(prev, f, j - m)))
    requires lp + m <= lnext && l <= lnext
    ensures Generates(next, lnext, f, r + 1)
  {
    hide Add, Mul, Conv, Inv;
    var d := Conv(lambda, f, r);
    var k := Mul(d, Inv(b));
    forall j | lnext <= j < r + 1 ensures Conv(next, f, j) == Zero {
      assert Conv(next, f, j) == Add(Conv(lambda, f, j), Mul(k, Conv(prev, f, j - m)));
      if j == r {
        MulAssoc(d, Inv(b), b); InvMul(b); MulOne(d); AddSelf(d);
      } else {
        MulZero(k); AddZero(Zero);
      }
    }
  }

  // ---------- power sums ----------

  function PowerSum(xs: seq<Gf>, s: nat): Gf {
    if |xs| == 0 then Zero else Add(PowerSum(xs[..|xs| - 1], s), Pow(xs[|xs| - 1], s))
  }

  function EvalAll(p: seq<Gf>, xs: seq<Gf>): (r: seq<Gf>)
    ensures |r| == |xs| && forall i :: 0 <= i < |r| ==> r[i] == Eval(p, xs[i])
  {
    seq(|xs|, i requires 0 <= i < |xs| => Eval(p, xs[i]))
  }

  function Geometric(x: Gf): Series { k => if k >= 0 then Pow(x, k + 1) else Zero }
  function PowerSeries(xs: seq<Gf>): Series { k => if k >= 0 then PowerSum(xs, k + 1) else Zero }

  lemma {:induction false} ConvAgree(p: seq<Gf>, f: Series, g: Series, j: int)
    requires forall k :: j - |p| < k <= j ==> f(k) == g(k)
    ensures Conv(p, f, j) == Conv(p, g, j)
  {
    hide Add, Mul;
    if |p| > 0 { ConvAgree(p[..|p| - 1], f, g, j); }
  }

  lemma {:induction false} ConvGeometric(p: seq<Gf>, x: Gf, j: nat)
    requires |p| <= j + 1
    ensures Conv(p, Geometric(x), j) == Mul(Pow(x, j + 2 - |p|), Eval(p, x))
  {
    hide Add, Mul, Pow;
    if |p| == 0 { MulZero(Pow(x, j + 2)); } else {
      var n := |p| - 1;
      var q, c := p[..n], p[n];
      ConvGeometric(q, x, j);
      var e, w := Eval(q, x), Pow(x, j + 1 - n);
      PowStep(x, j + 1 - n);
      assert Pow(x, j + 2 - n) == Mul(x, w);
      MulAddRight(w, Mul(x, e), c);
      MulComm(w, c);
      MulComm(x, w); MulAssoc(w, x, e);
    }
  }

  lemma {:induction false} ConvPowerSeries(p: seq<Gf>, xs: seq<Gf>, j: nat)
    requires |p| <= j + 1
    ensures Conv(p, PowerSeries(xs), j) == WeightedSum(EvalAll(p, xs), xs, j + 2 - |p|)
  {
    hide Add, Mul, Pow, Conv, Eval;
    if |xs| == 0 {
      ConvOfZero(p, PowerSeries(xs), j);
    } else {
      var n := |xs| - 1;
      var ys, x := xs[..n], xs[n];
      ConvPowerSeries(p, ys, j);
      ConvGeometric(p, x, j);
      forall k ensures PowerSeries(xs)(k) == Add(PowerSeries(ys)(k), Mul(One, Geometric(x)(k - 0))) {
        MulOne(Geometric(x)(k)); AddZero(Zero);
      }
      ConvLinear(p, PowerSeries(ys), Geometric(x), One, 0, PowerSeries(xs), j);
      MulOne(Conv(p, Geometric(x), j));
      assert EvalAll(p, xs)[..n] == EvalAll(p, ys);
      MulComm(Pow(x, j + 2 - |p|), Eval(p, x));
    }
  }

  // The locator polynomial of xs is a recurrence of length |xs| for the power sums of xs.
  lemma LocatorGenerates(xs: seq<Gf>, r: nat)
    ensures Generates(Product(xs), |xs|, PowerSeries(xs), r)
  {
    hide Add, Mul, Conv, Eval, Pow, Product;
    var p := Product(xs);
    forall j | |xs| <= j < r ensures Conv(p, PowerSeries(xs), j) == Zero {
      ConvPowerSeries(p, xs, j);
      forall i | 0 <= i < |xs| ensures EvalAll(p, xs)[i] == Zero { ProductRoot(xs, xs[i]); }
      WeightedSumZero(EvalAll(p, xs), xs, j + 2 - |p|);
    }
  }

  // No recurrence shorter than l produces the first r values of f.
  ghost predicate Shortest(l: nat, f: Series, r: nat) {
    forall c, l' :: Generates(c, l', f, r) ==> l <= l'
  }

  // The first 2t power sums of at most t locators, as a series.
  ghost predicate PowerSumsOf(f: Series, xs: seq<Gf>, t: nat) {
    && |xs| <= t
    && Distinct(xs)
    && (forall i :: 0 <= i < |xs| ==> xs[i] != Zero)
    && forall k :: 0 <= k < 2 * t ==> f(k) == PowerSum(xs, k + 1)
  }

  // c as a polynomial of degree l, highest coefficient first.
  function Padded(c: seq<Gf>, l: nat): (p: seq<Gf>)
    requires |c| <= l + 1
    ensures |p| == l + 1
  {
    c + Zeros(l + 1 - |c|)
  }

  lemma ShortestAtMostLocators(l: nat, xs: seq<Gf>, t: nat, f: Series)
    requires PowerSumsOf(f, xs, t) && Shortest(l, f, 2 * t)
    ensures l <= |xs|
  {
    hide Add, Mul, Conv, Pow, Product, Generates;
    LocatorGenerates(xs, 2 * t);
    SameGenerates(Product(xs), |xs|, PowerSeries(xs), f, 2 * t);
  }

  // A recurrence of length l <= |xs| for the power sums vanishes at every locator.
  lemma VanishesAtLocators(c: seq<Gf>, l: nat, xs: seq<Gf>, t: nat, f: Series)
    requires PowerSumsOf(f, xs, t) && Generates(c, l, f, 2 * t) && l <= |xs|
    ensures forall i :: 0 <= i < |xs| ==> Eval(Padded(c, l), xs[i]) == Zero
  {
    hide Add, Mul, Conv, Eval, Pow, WeightedSum;
    var p := Padded(c, l);
    var cs := EvalAll(p, xs);
    forall s | 1 <= s <= |xs| ensures WeightedSum(cs, xs, s) == Zero {
      var j := s + l - 1;
      ConvZeros(c, l + 1 - |c|, f, j);
      ConvAgree(p, f, PowerSeries(xs), j);
      ConvPowerSeries(p, xs, j);
    }
    WeightsVanish(cs, xs);
    forall i | 0 <= i < |xs| ensures Eval(p, xs[i]) == Zero { assert cs[i] == Zero; }
  }

  // A shortest recurrence for 2t power sums of at most t distinct non-zero locators has exactly one tap per
  // locator, and its polynomial vanishes exactly at the locators.
  lemma ShortestIsLocator(c: seq<Gf>, l: nat, xs: seq<Gf>, t: nat, f: Series)
    requires PowerSumsOf(f, xs, t) && Generates(c, l, f, 2 * t) && Shortest(l, f, 2 * t)
    ensures l == |xs|
    ensures forall x :: Eval(Padded(c, l), x) == Zero <==> x in xs
  {
    hide Add, Mul, Conv, Eval, Pow, Shortest;
    ShortestAtMostLocators(l, xs, t, f);
    VanishesAtLocators(c, l, xs, t, f);
    var p := Padded(c, l);
    assert p[0] == One;
    ZeroNotOne();
    if l < |xs| { TooManyRoots(p, xs); }
    forall x | Eval(p, x) == Zero ensures x in xs {
      if x !in xs { TooManyRoots(p, xs + [x]); }
    }
  }

  lemma SameGenerates(c: seq<Gf>, l: nat, f: Series, g: Series, r: nat)
    requires forall k :: 0 <= k < r ==> f(k) == g(k)
    requires 1 <= |c| <= l + 1
    ensures Generates(c, l, f, r) <==> Generates(c, l, g, r)
  {
    hide Conv;
    forall j | l <= j < r ensures Conv(c, f, j) == Conv(c, g, j) {
      ConvAgree(c, f, g, j);
    }
  }
}
