// Systematic encoding: the shift register divides by the generator.
module BchEncoding {
  import opened Wrappers
  import opened Gf256
  import opened GfLog
  import opened Poly
  import opened BchCode
  import opened BchGenerator

  // One clock of the register h (highest degree first) for generator g and message bit b.
  function Clock(h: seq<bool>, g: seq<bool>, b: bool): (r: seq<bool>)
    requires |h| >= 1 && |g| == |h| + 1
    ensures |r| == |h|
  {
    var feedback := b != h[0];
    var shifted := h[1..] + [false];
    if feedback then XorBits(shifted, g[1..]) else shifted
  }

  // The register after the whole message, highest degree first.
  function Register(g: seq<bool>, msg: seq<bool>): (h: seq<bool>)
    requires |g| >= 2
    ensures |h| == |g| - 1
  {
    if |msg| == 0 then Falses(|g| - 1) else Clock(Register(g, msg[..|msg| - 1]), g, msg[|msg| - 1])
  }

  // The feedback taps taken while the message is shifted in.
  function Feedbacks(g: seq<bool>, msg: seq<bool>): (q: seq<bool>)
    requires |g| >= 2
    ensures |q| == |msg|
  {
    if |msg| == 0 then [] else
      var m := msg[..|msg| - 1];
      Feedbacks(g, m) + [msg[|msg| - 1] != Register(g, m)[0]]
  }

  // The product g(x) * q(x) over GF(2), highest coefficient first.
  function Times(g: seq<bool>, q: seq<bool>): (r: seq<bool>)
    requires |g| >= 1
    ensures |r| == |g| - 1 + |q|
  {
    if |q| == 0 then Falses(|g| - 1) else
      var n := |q| - 1;
      var shifted := Times(g, q[..n]) + [false];
      if q[n] then XorBits(shifted, Falses(n) + g) else shifted
  }

  function Encode(g: seq<bool>, msg: seq<bool>): (w: seq<bool>)
    requires |g| >= 2
    ensures |w| == |msg| + |g| - 1
  {
    msg + Register(g, msg)
  }

  // Division with remainder: message * x^deg(g) + register = generator * feedbacks, exactly.
  lemma {:induction false} EncodeIsMultiple(g: seq<bool>, msg: seq<bool>)
    requires |g| >= 2 && g[0]
    ensures Encode(g, msg) == Times(g, Feedbacks(g, msg))
  {
    if |msg| == 0 {
      assert Encode(g, msg) == Falses(|g| - 1);
    } else {
      var n := |msg| - 1;
      var m, b := msg[..n], msg[n];
      EncodeIsMultiple(g, m);
      var h, q := Register(g, m), Feedbacks(g, msg);
      assert q[..n] == Feedbacks(g, m);
      EncodeStep(g, m, h, b);
      assert msg == m + [b];
    }
  }

  lemma EncodeStep(g: seq<bool>, m: seq<bool>, h: seq<bool>, b: bool)
    requires |g| >= 2 && g[0] && |h| == |g| - 1
    ensures m + [b] + Clock(h, g, b) ==
            if b != h[0] then XorBits(m + h + [false], Falses(|m|) + g) else m + h + [false]
  {
    var n := |m|;
    var l := m + [b] + Clock(h, g, b);
    var shifted := m + h + [false];
    var r := if b != h[0] then XorBits(shifted, Falses(n) + g) else shifted;
    assert |l| == |r|;
    forall i | 0 <= i < |l| ensures l[i] == r[i] {
      if i > n {
        assert l[i] == Clock(h, g, b)[i - n - 1];
        assert shifted[i] == (h[1..] + [false])[i - n - 1];
        assert (Falses(n) + g)[i] == g[1..][i - n - 1];
      }
    }
  }

  lemma {:induction false} EvalTimes(g: seq<bool>, q: seq<bool>, x: Gf)
    requires |g| >= 1
    ensures Eval(P(Times(g, q)), x) == Mul(Eval(P(g), x), Eval(P(q), x))
  {
    hide Add, Mul, Eval, Pow, Bit;
    var eg := Eval(P(g), x);
    if |q| == 0 {
      EvalFalses(|g| - 1, x);
      assert P(q) == [];
      EvalEmpty(x); MulZero(eg);
    } else {
      var n := |q| - 1;
      var p, c := q[..n], q[n];
      EvalTimes(g, p, x);
      var t := Times(g, p);
      var eq := Eval(P(p), x);
      EvalAppendBit(t, false, x);
      EvalAppendBit(p, c, x);
      assert q == p + [c];
      BitIsZero(false);
      AddZero(Mul(x, Eval(P(t), x)));
      MulSwap(x, eg, eq);
      MulAddRight(eg, Mul(x, eq), Bit(c));
      if c {
        EvalXor(t + [false], Falses(n) + g, x);
        EvalConcat(Falses(n), g, x);
        EvalFalses(n, x);
        MulZero(Pow(x, |g|)); AddZero(eg);
        BitOne(); MulOne(eg);
      } else {
        MulZero(eg); AddZero(Mul(eg, Mul(x, eq)));
      }
    }
  }

  lemma BitOne() ensures Bit(true) == One {}

  lemma EvalAppendBit(a: seq<bool>, b: bool, x: Gf)
    ensures Eval(P(a + [b]), x) == Add(Mul(x, Eval(P(a), x)), Bit(b))
  {
    hide Add, Mul, Eval, Bit;
    assert P(a + [b]) == P(a) + [Bit(b)];
    EvalSnoc(P(a), Bit(b), x);
  }

  lemma EvalFalses(n: nat, x: Gf)
    ensures Eval(P(Falses(n)), x) == Zero
  {
    hide Eval;
    EvalAllZero(P(Falses(n)), x);
  }

  // ---------- the code ----------

  // A word of n bits all of whose 2t syndromes are zero.
  ghost predicate IsCode(w: seq<bool>, t: nat) {
    |w| == N && forall j :: 1 <= j <= 2 * t ==> Eval(P(w), Pow(Alpha, j)) == Zero
  }

  lemma EncodedIsCode(g: seq<bool>, t: nat, msg: seq<bool>)
    requires 1 <= t <= 30 && IsGenerator(g, t) && |msg| == N - |Closure(t)|
    ensures |g| >= 2 && IsCode(Encode(g, msg), t)
  {
    hide Add, Mul, Eval, Pow, IsGenerator, Closure, Register, Feedbacks, Times;
    GeneratorShape(g, t);
    ClosureSize(t);
    EncodeIsMultiple(g, msg);
    var q := Feedbacks(g, msg);
    forall j | 1 <= j <= 2 * t ensures Eval(P(Encode(g, msg)), Pow(Alpha, j)) == Zero {
      var x := Pow(Alpha, j);
      GeneratorVanishes(g, t, j);
      EvalTimes(g, q, x);
      ZeroMul(Eval(P(q), x));
    }
  }

  // A binary word that vanishes at x vanishes at every iterated square of x.
  lemma {:induction false} VanishesAtSquares(w: seq<bool>, x: Gf, k: nat)
    requires Eval(P(w), x) == Zero
    ensures Eval(P(w), Pow(x, TwoTo(k))) == Zero
  {
    hide Add, Mul, Eval, Pow;
    if k == 0 { PowBase(x); } else {
      VanishesAtSquares(w, x, k - 1);
      var y := Pow(x, TwoTo(k - 1));
      EvalFrobenius(w, y);
      PowAdd(x, TwoTo(k - 1), TwoTo(k - 1));
      MulZero(Zero);
    }
  }

  lemma CodeVanishesAtRoots(w: seq<bool>, t: nat, i: nat)
    requires IsCode(w, t) && i < |Roots(t)|
    ensures Eval(P(w), Roots(t)[i]) == Zero
  {
    hide Eval, Pow, P, Ascending;
    var l := Ascending(Closure(t), 255);
    AscendingSorted(Closure(t), 255);
    var r := l[i];
    var a: nat, b: nat :| Conjugate(a, b) == r && 1 <= a <= 2 * t;
    RootIsConjugate(a, b);
    VanishesAtSquares(w, Pow(Alpha, a), b);
  }

  // The code is exactly the image of the encoder: every word with zero syndromes is the encoding of its own
  // first k bits.
  lemma CodeIsEncoded(g: seq<bool>, t: nat, w: seq<bool>)
    requires 1 <= t <= 30 && IsGenerator(g, t) && |w| == N
    ensures |g| >= 2 && |g| == |Closure(t)| + 1 && |Closure(t)| < N
    ensures IsCode(w, t) <==> w == Encode(g, w[..N - |Closure(t)|])
  {
    hide Add, Mul, Eval, Pow, IsGenerator, Closure, Register;
    GeneratorShape(g, t);
    ClosureSize(t);
    var k := N - |Closure(t)|;
    var c := Encode(g, w[..k]);
    EncodedIsCode(g, t, w[..k]);
    if IsCode(w, t) {
      var d := XorBits(w, c);
      var tail := d[k..];
      RootsProperties(t);
      forall i | 0 <= i < |Roots(t)| ensures Eval(P(tail), Roots(t)[i]) == Zero {
        var x := Roots(t)[i];
        CodeVanishesAtRoots(w, t, i);
        CodeVanishesAtRoots(c, t, i);
        EvalXor(w, c, x);
        AddZero(Zero);
        assert d == Falses(k) + tail;
        EvalConcat(Falses(k), tail, x);
        EvalFalses(k, x);
        MulZero(Pow(x, |tail|)); AddZero(Eval(P(tail), x));
      }
      TooManyRoots(P(tail), Roots(t));
      forall i | 0 <= i < N ensures w[i] == c[i] {
        if i >= k {
          assert P(tail)[i - k] == Zero;
          BitIsZero(tail[i - k]);
          assert d[i] == tail[i - k];
        }
      }
    }
  }
}
