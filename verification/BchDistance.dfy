// Hamming distance, error locators and the designed distance of the code.
module BchDistance {
  import opened Gf256
  import opened GfLog
  import opened Poly
  import opened Recurrence
  import opened BchCode
  import opened BchGenerator
  import opened BchEncoding

  function Weight(w: seq<bool>): nat {
    if |w| == 0 then 0 else (if w[0] then 1 else 0) + Weight(w[1..])
  }

  function Distance(a: seq<bool>, b: seq<bool>): nat
    requires |a| == |b|
  {
    Weight(XorBits(a, b))
  }

  lemma {:induction false} WeightZero(w: seq<bool>)
    ensures Weight(w) == 0 <==> forall i :: 0 <= i < |w| ==> !w[i]
  {
    if |w| > 0 {
      WeightZero(w[1..]);
      if forall i :: 0 <= i < |w| ==> !w[i] {
        assert forall i :: 0 <= i < |w[1..]| ==> !w[1..][i];
      } else if !w[0] {
        var i :| 0 <= i < |w| && w[i];
        assert w[1..][i - 1];
      }
    }
  }

  lemma {:induction false} Triangle(a: seq<bool>, b: seq<bool>, c: seq<bool>)
    requires |a| == |b| == |c|
    ensures Distance(a, c) <= Distance(a, b) + Distance(b, c)
  {
    if |a| > 0 {
      Triangle(a[1..], b[1..], c[1..]);
      assert XorBits(a, c)[1..] == XorBits(a[1..], c[1..]);
      assert XorBits(a, b)[1..] == XorBits(a[1..], b[1..]);
      assert XorBits(b, c)[1..] == XorBits(b[1..], c[1..]);
    }
  }

  lemma DistanceSymmetric(a: seq<bool>, b: seq<bool>)
    requires |a| == |b|
    ensures Distance(a, b) == Distance(b, a)
  {
    assert XorBits(a, b) == XorBits(b, a);
  }

  // ---------- locators: alpha^d for every error at degree d, lowest degree first ----------

  function Locators(e: seq<bool>, i: nat): seq<Gf>
    requires i <= |e|
  {
    if i == 0 then [] else
      Locators(e, i - 1) + (if e[|e| - i] then [Pow(Alpha, i - 1)] else [])
  }

  lemma {:induction false} LocatorCount(e: seq<bool>, i: nat)
    requires i <= |e|
    ensures |Locators(e, i)| == Weight(e[|e| - i..])
  {
    if i > 0 {
      LocatorCount(e, i - 1);
      assert e[|e| - i..][1..] == e[|e| - (i - 1)..];
    }
  }

  ghost predicate LocatesBelow(xs: seq<Gf>, e: seq<bool>, i: nat)
    requires i <= |e|
  {
    && Distinct(xs)
    && (forall k :: 0 <= k < |xs| ==> xs[k] != Zero)
    && (forall k :: 0 <= k < |xs| ==> exists d: nat :: d < i && xs[k] == Pow(Alpha, d))
    && (forall d: nat :: d < i ==> (Pow(Alpha, d) in xs <==> e[|e| - 1 - d]))
  }

  lemma {:induction false} LocatorsLocate(e: seq<bool>, i: nat)
    requires i <= |e| <= N
    ensures LocatesBelow(Locators(e, i), e, i)
  {
    hide Pow;
    if i > 0 {
      LocatorsLocate(e, i - 1);
      var xs, x := Locators(e, i - 1), Pow(Alpha, i - 1);
      PowNonZero(i - 1);
      if x in xs {
        var k :| 0 <= k < |xs| && xs[k] == x;
        var d: nat :| d < i - 1 && xs[k] == Pow(Alpha, d);
        PowInjective(d, i - 1);
      }
      LocateOneMore(xs, e, i);
    }
  }

  lemma LocateOneMore(xs: seq<Gf>, e: seq<bool>, i: nat)
    requires 0 < i <= |e| <= N && LocatesBelow(xs, e, i - 1)
    requires Pow(Alpha, i - 1) != Zero && Pow(Alpha, i - 1) !in xs
    ensures LocatesBelow(xs + (if e[|e| - i] then [Pow(Alpha, i - 1)] else []), e, i)
  {
    hide Mul;
    var x := Pow(Alpha, i - 1);
    var ys := xs + (if e[|e| - i] then [x] else []);
    forall k | 0 <= k < |ys| ensures exists d: nat :: d < i && ys[k] == Pow(Alpha, d) {
      if k < |xs| {
        var d: nat :| d < i - 1 && xs[k] == Pow(Alpha, d);
      }
    }
    forall d: nat | d < i ensures Pow(Alpha, d) in ys <==> e[|e| - 1 - d] {
      if d < i - 1 && Pow(Alpha, d) == x { PowInjective(d, i - 1); }
    }
  }

  lemma {:induction false} LocatorPowerSum(e: seq<bool>, i: nat, j: nat)
    requires i <= |e|
    ensures PowerSum(Locators(e, i), j) == Eval(P(e[|e| - i..]), Pow(Alpha, j))
  {
    hide Add, Mul, Eval, Pow, P, PowerSum;
    if i == 0 {
      assert e[|e| - i..] == [];
      NoBits(j);
    } else {
      LocatorPowerSum(e, i - 1, j);
      var b, s := e[|e| - i], e[|e| - (i - 1)..];
      assert e[|e| - i..] == [b] + s;
      LeadingBit(b, s, i - 1, j);
      var xs := Locators(e, i - 1);
      if b {
        PowerSumSnoc(xs, Pow(Alpha, i - 1), j);
        AddComm(Pow(Pow(Alpha, i - 1), j), Eval(P(s), Pow(Alpha, j)));
      } else {
        assert Locators(e, i) == xs;
      }
    }
  }

  lemma NoBits(j: nat)
    ensures PowerSum([], j) == Eval(P([]), Pow(Alpha, j))
  {
    assert P([]) == [];
    EvalEmpty(Pow(Alpha, j));
  }

  lemma PowerSumSnoc(xs: seq<Gf>, x: Gf, j: nat)
    ensures PowerSum(xs + [x], j) == Add(PowerSum(xs, j), Pow(x, j))
  {
    assert (xs + [x])[..|xs|] == xs;
  }

  // A set leading bit of degree d contributes (alpha^d)^j.
  lemma LeadingBit(b: bool, s: seq<bool>, d: nat, j: nat)
    requires |s| == d
    ensures Eval(P([b] + s), Pow(Alpha, j)) ==
            if b then Add(Pow(Pow(Alpha, d), j), Eval(P(s), Pow(Alpha, j))) else Eval(P(s), Pow(Alpha, j))
  {
    hide Add, Mul, Eval, Pow, Bit;
    var y := Pow(Alpha, j);
    assert P([b] + s) == [Bit(b)] + P(s);
    EvalCons(Bit(b), P(s), y);
    PowTimes(Alpha, j, d); PowTimes(Alpha, d, j);
    if b {
      BitOne(); MulOne(Pow(y, d));
    } else {
      BitIsZero(b); ZeroMul(Pow(y, d)); AddZero(Eval(P(s), y));
    }
  }

  function Ones(n: nat): (r: seq<Gf>)
    ensures |r| == n && forall i :: 0 <= i < n ==> r[i] == One
  {
    seq(n, i => One)
  }

  lemma OnesNotZero(n: nat)
    requires n > 0
    ensures !AllZero(Ones(n))
  {
    ZeroNotOne();
    assert Ones(n)[0] != Zero;
  }

  lemma {:induction false} OnesSum(xs: seq<Gf>, s: nat)
    ensures WeightedSum(Ones(|xs|), xs, s) == PowerSum(xs, s)
  {
    hide Add, Mul, Pow;
    if |xs| > 0 {
      var n := |xs| - 1;
      OnesSum(xs[..n], s);
      assert Ones(|xs|)[..n] == Ones(n);
      MulOne(Pow(xs[n], s));
    }
  }

  // The BCH bound: no non-zero word of weight at most 2t has 2t zero syndromes.
  lemma BchBound(e: seq<bool>, t: nat)
    requires IsCode(e, t) && Weight(e) <= 2 * t
    ensures e == Falses(N)
  {
    hide Eval, Pow, Weight, WeightedSum, P;
    var xs := Locators(e, N);
    assert e[|e| - N..] == e;
    LocatorCount(e, N);
    LocatorsLocate(e, N);
    forall s | 1 <= s <= |xs| ensures WeightedSum(Ones(|xs|), xs, s) == Zero {
      OnesSum(xs, s);
      LocatorPowerSum(e, N, s);
    }
    WeightsVanish(Ones(|xs|), xs);
    if |xs| > 0 { OnesNotZero(|xs|); }
    WeightZero(e);
  }

  lemma CodeDifference(a: seq<bool>, b: seq<bool>, t: nat)
    requires IsCode(a, t) && IsCode(b, t)
    ensures IsCode(XorBits(a, b), t)
  {
    hide Eval, Pow, P, Add;
    forall j | 1 <= j <= 2 * t ensures Eval(P(XorBits(a, b)), Pow(Alpha, j)) == Zero {
      EvalXor(a, b, Pow(Alpha, j));
      AddZero(Zero);
    }
  }

  // Distinct codewords differ in at least 2t + 1 bits.
  lemma MinimumDistance(a: seq<bool>, b: seq<bool>, t: nat)
    requires IsCode(a, t) && IsCode(b, t) && a != b
    ensures Distance(a, b) >= 2 * t + 1
  {
    hide IsCode, Weight;
    CodeLength(a, t); CodeLength(b, t);
    var e := XorBits(a, b);
    CodeDifference(a, b, t);
    if Weight(e) <= 2 * t {
      BchBound(e, t);
      forall i | 0 <= i < N ensures a[i] == b[i] { assert !e[i]; }
    }
  }

  lemma CodeLength(a: seq<bool>, t: nat) requires IsCode(a, t) ensures |a| == N {}

  // At most one codeword lies within distance t of a word.
  lemma NearestUnique(r: seq<bool>, a: seq<bool>, b: seq<bool>, t: nat)
    requires |r| == N && IsCode(a, t) && IsCode(b, t)
    requires Distance(r, a) <= t && Distance(r, b) <= t
    ensures a == b
  {
    hide IsCode, Weight, Distance;
    CodeLength(a, t); CodeLength(b, t);
    if a != b {
      MinimumDistance(a, b, t);
      DistanceSymmetric(r, a);
      Triangle(a, r, b);
    }
  }

  // ---------- syndromes ----------

  function SyndromeSeries(r: seq<bool>): Series { k => if k >= 0 then Eval(P(r), Pow(Alpha, k + 1)) else Zero }

  // The syndromes of a corrupted codeword are the power sums of the error locators.
  lemma SyndromesArePowerSums(r: seq<bool>, c: seq<bool>, t: nat, f: Series)
    requires |r| == N && IsCode(c, t) && Distance(r, c) <= t
    requires forall k :: 0 <= k < 2 * t ==> f(k) == SyndromeSeries(r)(k)
    ensures PowerSumsOf(f, Locators(XorBits(r, c), N), t)
    ensures |Locators(XorBits(r, c), N)| == Distance(r, c)
  {
    hide Eval, Pow, P, Add, Weight, Locators, PowerSum;
    var e := XorBits(r, c);
    assert e[|e| - N..] == e;
    LocatorCount(e, N);
    LocatorsLocate(e, N);
    forall k | 0 <= k < 2 * t ensures f(k) == PowerSum(Locators(e, N), k + 1) {
      var x := Pow(Alpha, k + 1);
      LocatorPowerSum(e, N, k + 1);
      EvalXor(r, c, x);
      AddZero(Eval(P(r), x));
      assert SyndromeSeries(r)(k) == Eval(P(r), x);
    }
  }

  // Any shortest recurrence for the syndromes of a word within distance t of a codeword has length equal to
  // the number of errors, and its polynomial vanishes at alpha^d exactly when degree d is in error.
  lemma RecurrenceLocatesErrors(r: seq<bool>, c: seq<bool>, t: nat, f: Series, lambda: seq<Gf>, l: nat)
    requires |r| == N && IsCode(c, t) && Distance(r, c) <= t
    requires forall k :: 0 <= k < 2 * t ==> f(k) == SyndromeSeries(r)(k)
    requires Generates(lambda, l, f, 2 * t) && Shortest(l, f, 2 * t)
    ensures l == Distance(r, c)
    ensures forall d: nat :: d < N ==> (Eval(Padded(lambda, l), Pow(Alpha, d)) == Zero <==> r[N - 1 - d] != c[N - 1 - d])
  {
    hide Eval, Pow, P, Weight, Locators, Shortest, Padded, PowerSumsOf, Distance;
    var e := XorBits(r, c);
    var xs := Locators(e, N);
    SyndromesArePowerSums(r, c, t, f);
    ShortestIsLocator(lambda, l, xs, t, f);
    LocatorsLocate(e, N);
    forall d: nat | d < N ensures Eval(Padded(lambda, l), Pow(Alpha, d)) == Zero <==> r[N - 1 - d] != c[N - 1 - d] {
      assert Pow(Alpha, d) in xs <==> e[N - 1 - d];
    }
  }
}
