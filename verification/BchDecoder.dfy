// Bounded-distance decoding: syndromes, Berlekamp-Massey, Chien search, and the final check.
module BchDecoder {
  import opened Gf256
  import opened GfLog
  import opened Poly
  import opened Recurrence
  import opened Bits
  import opened BchCode
  import opened BchGenerator
  import opened BchEncoding
  import opened BchDistance
  import opened BchCodec
  import opened BerlekampMassey

  // ---------- the decoder's specification ----------

  function Word(b: Bytes): (w: seq<bool>)
    requires |b| >= 32
    ensures |w| == N
  {
    BitSeq(b, N)
  }

  // b is a codeword within distance t of r, with r's padding bit.
  ghost predicate DecodesTo(t: nat, r: Bytes, b: Bytes) {
    && |r| == 32 && |b| == 32
    && IsCode(Word(b), t)
    && Distance(Word(r), Word(b)) <= t
    && GetBit(b, N) == GetBit(r, N)
  }

  lemma DecodesToUnique(t: nat, r: Bytes, a: Bytes, b: Bytes)
    requires DecodesTo(t, r, a) && DecodesTo(t, r, b)
    ensures a == b
  {
    hide IsCode, Distance, GetBit;
    NearestUnique(Word(r), Word(a), Word(b), t);
    forall j | 0 <= j < 8 * |a| ensures GetBit(a, j) == GetBit(b, j) {
      if j < N { assert Word(a)[j] == Word(b)[j]; }
    }
    BitsDetermine(a, b);
  }

  // ---------- syndromes ----------

  lemma SyndromeStep(w: seq<bool>, i: nat, x: Gf)
    requires i < |w| <= N
    ensures Mul(Pow(x, N - 1 - i), Eval(P(w[..i + 1]), x)) ==
            (var before := Mul(Pow(x, N - i), Eval(P(w[..i]), x));
             if w[i] then Add(before, Pow(x, N - 1 - i)) else before)
  {
    hide Add, Mul, Pow, Eval, P, Bit;
    var e, p := Eval(P(w[..i]), x), Pow(x, N - 1 - i);
    assert w[..i + 1] == w[..i] + [w[i]];
    EvalAppendBit(w[..i], w[i], x);
    MulAddRight(p, Mul(x, e), Bit(w[i]));
    PowStep(x, N - 1 - i);
    MulAssoc(p, x, e); MulComm(p, x);
    if w[i] { BitOne(); MulOne(p); } else {
      BitIsZero(false); MulZero(p); AddZero(Mul(p, Mul(x, e)));
    }
  }

  method SyndromeAt(c: Codec, word: Bytes, j: nat) returns (acc: Gf)
    requires c.Valid() && |word| >= 32 && 1 <= j <= 2 * c.t
    ensures acc == Eval(P(Word(word)), Pow(Alpha, j))
  {
    hide Add, Mul, Pow, Eval, P, GetBit, Closure, IsGenerator;
    ghost var w := Word(word);
    ghost var x := Pow(Alpha, j);
    acc := Zero;
    StartEmpty(w, x);
    PowNonZero(j);
    for i := 0 to N
      invariant acc == Mul(Pow(x, N - i), Eval(P(w[..i]), x))
    {
      SyndromeStep(w, i, x);
      if GetBit(word, i) {
        var power := N - 1 - i;
        acc := Add(acc, c.GfPow(c.expTable[j % 255], power));
      }
    }
    assert w[..N] == w;
    PowBase(x); MulOne(Eval(P(w), x));
  }

  lemma StartEmpty(w: seq<bool>, x: Gf)
    ensures Mul(Pow(x, N), Eval(P(w[..0]), x)) == Zero
  {
    hide Mul, Pow;
    assert P(w[..0]) == [];
    EvalEmpty(x); MulZero(Pow(x, N));
  }

  method ComputeSyndromes(c: Codec, word: Bytes) returns (syn: seq<Gf>)
    requires c.Valid() && |word| >= 32
    ensures |syn| == 2 * c.t
    ensures forall k :: 0 <= k < |syn| ==> syn[k] == Eval(P(Word(word)), Pow(Alpha, k + 1))
  {
    hide Pow, Eval, P, Codec.Valid;
    ValidT(c);
    syn := seq(2 * c.t, i => Zero);
    for j := 1 to 2 * c.t + 1
      invariant |syn| == 2 * c.t
      invariant forall k :: 0 <= k < j - 1 ==> syn[k] == Eval(P(Word(word)), Pow(Alpha, k + 1))
    {
      var acc := SyndromeAt(c, word, j);
      syn := syn[j - 1 := acc];
    }
  }

  lemma ValidT(c: Codec) requires c.Valid() ensures 1 <= c.t <= 30 && c.Tables() {}

  method IsCodeword(c: Codec, word: Bytes) returns (r: bool)
    requires c.Valid() && |word| >= 32
    ensures r <==> IsCode(Word(word), c.t)
  {
    hide Pow, Eval, P, Codec.Valid;
    ValidT(c);
    var syn := ComputeSyndromes(c, word);
    for i := 0 to |syn|
      invariant forall k :: 0 <= k < i ==> syn[k] == Zero
    {
      if syn[i] != Zero {
        assert Eval(P(Word(word)), Pow(Alpha, i + 1)) != Zero;
        return false;
      }
    }
    forall j | 1 <= j <= 2 * c.t ensures Eval(P(Word(word)), Pow(Alpha, j)) == Zero { assert syn[j - 1] == Zero; }
    return true;
  }

  // ---------- Berlekamp-Massey ----------

  method Discrepancy(c: Codec, lambda: seq<Gf>, l: nat, syn: seq<Gf>, r: nat) returns (delta: Gf)
    requires c.Tables() && 1 <= |lambda| <= l + 1 && l <= r < |syn| && lambda[0] == One
    ensures delta == Conv(lambda, Syndromes(syn), r)
  {
    hide Add, Mul, Codec.Tables, Codec.GfMul;
    ghost var f := Syndromes(syn);
    delta := syn[r];
    assert lambda[..1] == [] + [One];
    ConvSnoc([], One, f, r);
    ConvEmpty(f, r); MulOne(f(r)); AddZero(f(r));
    var i := 1;
    while i <= l && i < |lambda|
      invariant 1 <= i <= |lambda|
      invariant delta == Conv(lambda[..i], f, r)
    {
      if r - i >= 0 {
        delta := Add(delta, c.GfMul(lambda[i], syn[r - i]));
      }
      assert lambda[..i + 1] == lambda[..i] + [lambda[i]];
      ConvSnoc(lambda[..i], lambda[i], f, r);
      i := i + 1;
    }
    assert lambda[..|lambda|] == lambda;
  }

  lemma ConvEmpty(f: Series, r: int) ensures Conv([], f, r) == Zero {}

  method Correct(c: Codec, lambda: seq<Gf>, prev: seq<Gf>, m: nat, coeff: Gf, ghost f: Series) returns (next: seq<Gf>)
    requires c.Tables() && |lambda| >= 1 && m >= 1
    ensures |next| == if |lambda| < |prev| + m then |prev| + m else |lambda|
    ensures next[0] == lambda[0]
    ensures Corrected(next, lambda, coeff, prev, m, f)
  {
    hide Add, Mul, Conv, Codec.Tables, Codec.GfMul;
    next := lambda;
    if |next| < |prev| + m { next := next + Zeros(|prev| + m - |next|); }
    forall j ensures Conv(next, f, j) == Add(Conv(lambda, f, j), Mul(coeff, Conv(prev[..0], f, j - m))) {
      ConvZeros(lambda, |next| - |lambda|, f, j);
      assert Zeros(0) == [] && lambda + [] == lambda;
      assert prev[..0] == [];
      ConvEmpty(f, j - m);
      MulZero(coeff); AddZero(Conv(lambda, f, j));
    }
    ghost var size := |next|;
    for i := 0 to |prev|
      invariant |next| == size >= |prev| + m && next[0] == lambda[0]
      invariant Corrected(next, lambda, coeff, prev[..i], m, f)
    {
      ghost var before := next;
      var v := c.GfMul(coeff, prev[i]);
      next := next[i + m := Add(next[i + m], v)];
      forall j ensures Conv(next, f, j) == Add(Conv(lambda, f, j), Mul(coeff, Conv(prev[..i + 1], f, j - m))) {
        ConvUpdate(before, i + m, v, f, j);
        assert prev[..i + 1] == prev[..i] + [prev[i]];
        ConvSnoc(prev[..i], prev[i], f, j - m);
        CorrectTerm(Conv(lambda, f, j), coeff, Conv(prev[..i], f, j - m), prev[i], f(j - m - i));
        assert j - m - i == j - (i + m);
      }
    }
    assert prev[..|prev|] == prev;
  }

  lemma CorrectTerm(a: Gf, k: Gf, b: Gf, p: Gf, s: Gf)
    ensures Add(Add(a, Mul(k, b)), Mul(Mul(k, p), s)) == Add(a, Mul(k, Add(b, Mul(p, s))))
  {
    hide *;
    MulAddRight(k, b, Mul(p, s));
    MulAssoc(k, p, s);
    AddAssoc(a, Mul(k, b), Mul(k, Mul(p, s)));
  }

  // The shortest recurrence that produces every syndrome.
  method ShortestRecurrence(c: Codec, syn: seq<Gf>) returns (lambda: seq<Gf>, l: nat)
    requires c.Tables()
    ensures Generates(lambda, l, Syndromes(syn), |syn|)
    ensures Shortest(l, Syndromes(syn), |syn|)
  {
    hide Add, Mul, Inv, Conv, Shortest, Corrected, Codec.Tables, Codec.GfMul, Codec.GfInv;
    ghost var f := Syndromes(syn);
    lambda := [One];
    var prev := [One];
    l := 0;
    var m := 1;
    var b := One;
    ghost var lp := 0;
    Initial(f);
    for r := 0 to |syn|
      invariant State(lambda, l, prev, lp, m, b, f, r)
    {
      var delta := Discrepancy(c, lambda, l, syn, r);
      if delta == Zero {
        Advance(lambda, l, prev, lp, m, b, f, r);
        m := m + 1;
      } else if 2 * l <= r {
        var temp := lambda;
        var coeff := c.GfMul(delta, c.GfInv(b));
        var next := Correct(c, lambda, prev, m, coeff, f);
        Lengthen(lambda, l, prev, lp, m, b, f, r, next);
        lp := l;
        lambda := next;
        l := r + 1 - l;
        prev := temp;
        b := delta;
        m := 1;
      } else {
        var coeff := c.GfMul(delta, c.GfInv(b));
        var next := Correct(c, lambda, prev, m, coeff, f);
        Adjust(lambda, l, prev, lp, m, b, f, r, next);
        lambda := next;
        m := m + 1;
      }
    }
  }

  // ---------- Chien search ----------

  // Bit positions whose degree d < i makes alpha^d a zero of p, lowest degree first.
  ghost function RootPositions(p: seq<Gf>, i: nat): seq<nat>
    requires i <= N
  {
    if i == 0 then [] else
      RootPositions(p, i - 1) + (if Eval(p, Pow(Alpha, i - 1)) == Zero then [N - i] else [])
  }

  // e marks exactly the positions where p vanishes.
  ghost predicate Marks(e: seq<bool>, p: seq<Gf>) {
    |e| == N && forall d: nat :: d < N ==> (Eval(p, Pow(Alpha, d)) == Zero <==> e[N - 1 - d])
  }

  lemma {:induction false} RootPositionsListed(p: seq<Gf>, e: seq<bool>, i: nat)
    requires i <= N && Marks(e, p)
    ensures |RootPositions(p, i)| == Weight(e[N - i..])
    ensures forall k :: 0 <= k < |RootPositions(p, i)| ==> N - i <= RootPositions(p, i)[k] < N
    ensures forall k, m :: 0 <= k < m < |RootPositions(p, i)| ==> RootPositions(p, i)[k] != RootPositions(p, i)[m]
    ensures forall x: nat :: N - i <= x < N ==> (x in RootPositions(p, i) <==> e[x])
  {
    hide Eval, Pow;
    if i > 0 {
      RootPositionsListed(p, e, i - 1);
      assert e[N - i..][1..] == e[N - (i - 1)..];
      assert Eval(p, Pow(Alpha, i - 1)) == Zero <==> e[N - 1 - (i - 1)];
    }
  }

  function NegativeExponent(j: nat, i: nat): (e: nat)
    ensures e < 255 && (e + j * i) % 255 == 0
  {
    // C truncates towards zero: (-(j * i)) % 255 is minus the remainder of j * i.
    var exponent := -((j * i) % 255);
    if exponent < 0 then exponent + 255 else exponent
  }

  lemma ChienStep(lambda: seq<Gf>, j: nat, i: nat, sum: Gf)
    requires j < |lambda|
    requires var beta := Pow(Alpha, i); Mul(Pow(beta, j), sum) == Mul(beta, Eval(lambda[..j], beta))
    ensures var beta := Pow(Alpha, i);
            Mul(Pow(beta, j + 1), Add(sum, Mul(lambda[j], Pow(Alpha, NegativeExponent(j, i))))) ==
            Mul(beta, Eval(lambda[..j + 1], beta))
  {
    hide Add, Mul, Pow, Eval, NegativeExponent;
    var beta, e := Pow(Alpha, i), NegativeExponent(j, i);
    var q, x, a := Pow(beta, j), Pow(Alpha, e), lambda[j];
    Cancels(j, i, e);
    PowStep(beta, j);
    var ev := Eval(lambda[..j], beta);
    assert lambda[..j + 1] == lambda[..j] + [a];
    EvalSnoc(lambda[..j], a, beta);
    ChienTerm(beta, q, sum, a, x, ev);
  }

  lemma Cancels(j: nat, i: nat, e: nat)
    requires (e + j * i) % 255 == 0
    ensures Mul(Pow(Pow(Alpha, i), j), Pow(Alpha, e)) == One
  {
    hide Mul, Pow;
    PowTimes(Alpha, i, j);
    PowAdd(Alpha, i * j, e);
    assert i * j + e == e + j * i;
    PowMod(i * j + e);
    PowBase(Alpha);
  }

  lemma ChienTerm(beta: Gf, q: Gf, sum: Gf, a: Gf, x: Gf, ev: Gf)
    requires Mul(q, sum) == Mul(beta, ev) && Mul(q, x) == One
    ensures Mul(Mul(beta, q), Add(sum, Mul(a, x))) == Mul(beta, Add(Mul(beta, ev), a))
  {
    hide *;
    MulAssoc(beta, q, Add(sum, Mul(a, x)));
    MulAddRight(q, sum, Mul(a, x));
    MulSwap(q, a, x);
    MulOne(a);
  }

  lemma NonZeroPower(i: nat, k: nat)
    ensures Pow(Pow(Alpha, i), k) != Zero
  {
    hide *;
    PowTimes(Alpha, i, k); PowNonZero(i * k);
  }

  // Whether lambda, as a polynomial of degree l, vanishes at alpha^i.
  method VanishesAt(c: Codec, lambda: seq<Gf>, l: nat, i: nat) returns (r: bool)
    requires c.Tables() && 1 <= |lambda| <= l + 1 && i < N
    ensures r <==> Eval(Padded(lambda, l), Pow(Alpha, i)) == Zero
  {
    hide Add, Mul, Pow, Eval, NegativeExponent, Codec.GfMul;
    ghost var beta := Pow(Alpha, i);
    var sum := Zero;
    StartChien(lambda, beta);
    for j := 0 to |lambda|
      invariant Mul(Pow(beta, j), sum) == Mul(beta, Eval(lambda[..j], beta))
    {
      ChienStep(lambda, j, i, sum);
      if lambda[j] == Zero {
        ZeroMul(Pow(Alpha, NegativeExponent(j, i))); AddZero(sum);
        continue;
      }
      var exponent := NegativeExponent(j, i);
      sum := Add(sum, c.GfMul(lambda[j], c.expTable[exponent]));
    }
    assert lambda[..|lambda|] == lambda;
    ChienDecides(lambda, l, i, sum);
    r := sum == Zero;
  }

  lemma StartChien(lambda: seq<Gf>, beta: Gf)
    ensures Mul(Pow(beta, 0), Zero) == Mul(beta, Eval(lambda[..0], beta))
  {
    hide Mul, Pow;
    EvalEmpty(beta); MulZero(beta); MulZero(Pow(beta, 0));
    assert lambda[..0] == [];
  }

  lemma ChienDecides(lambda: seq<Gf>, l: nat, i: nat, sum: Gf)
    requires 1 <= |lambda| <= l + 1
    requires var beta := Pow(Alpha, i); Mul(Pow(beta, |lambda|), sum) == Mul(beta, Eval(lambda, beta))
    ensures sum == Zero <==> Eval(Padded(lambda, l), Pow(Alpha, i)) == Zero
  {
    hide Mul, Pow, Eval;
    var beta := Pow(Alpha, i);
    var k := l + 1 - |lambda|;
    EvalPad(lambda, k, beta);
    NonZeroPower(i, k); NonZeroPower(i, |lambda|); PowNonZero(i);
    var e := Eval(lambda, beta);
    MulZero(Pow(beta, k)); MulZero(Pow(beta, |lambda|)); MulZero(beta);
    if e != Zero { MulNonZero(Pow(beta, k), e); MulNonZero(beta, e); }
    if sum != Zero { MulNonZero(Pow(beta, |lambda|), sum); }
  }

  method ChienSearch(c: Codec, lambda: seq<Gf>, l: nat) returns (errorPositions: seq<nat>)
    requires c.Tables() && 1 <= |lambda| <= l + 1
    ensures errorPositions == RootPositions(Padded(lambda, l), N)
  {
    hide Pow, Eval, Padded, Codec.Tables;
    errorPositions := [];
    for i := 0 to N
      invariant errorPositions == RootPositions(Padded(lambda, l), i)
    {
      var vanishes := VanishesAt(c, lambda, l, i);
      if vanishes {
        var bitIndex := N - 1 - i;
        errorPositions := errorPositions + [bitIndex];
      }
    }
  }

  // ---------- the decoder ----------

  method FlipBits(received: Bytes, positions: seq<nat>) returns (corrected: Bytes)
    requires |received| == 32
    requires forall k :: 0 <= k < |positions| ==> positions[k] < N
    requires forall k, m :: 0 <= k < m < |positions| ==> positions[k] != positions[m]
    ensures |corrected| == 32
    ensures forall i :: 0 <= i < 256 ==> GetBit(corrected, i) == (GetBit(received, i) != (i in positions))
  {
    hide GetBit;
    corrected := received;
    for k := 0 to |positions|
      invariant |corrected| == 32
      invariant forall i :: 0 <= i < 256 ==> GetBit(corrected, i) == (GetBit(received, i) != (i in positions[..k]))
    {
      var pos := positions[k];
      assert pos !in positions[..k];
      assert positions[..k + 1] == positions[..k] + [pos];
      corrected := SetBit(corrected, pos, !GetBit(corrected, pos));
    }
    assert positions[..|positions|] == positions;
  }

  // Flipping every position where p vanishes moves the word by exactly that many bits.
  lemma FlippedDistance(r: Bytes, b: Bytes, p: seq<Gf>)
    requires |r| == |b| == 32
    requires forall i :: 0 <= i < 256 ==> GetBit(b, i) == (GetBit(r, i) != (i in RootPositions(p, N)))
    ensures Distance(Word(r), Word(b)) == |RootPositions(p, N)|
    ensures GetBit(b, N) == GetBit(r, N)
  {
    hide GetBit, Eval, Pow, Weight, RootPositions;
    var e := Marking(p);
    RootPositionsListed(p, e, N);
    assert e[N - N..] == e;
    var x := XorBits(Word(r), Word(b));
    forall i | 0 <= i < N ensures x[i] == e[i] {}
    assert x == e;
    assert N !in RootPositions(p, N);
  }

  ghost function Marking(p: seq<Gf>): (e: seq<bool>)
    ensures Marks(e, p)
  {
    seq(N, i requires 0 <= i < N => Eval(p, Pow(Alpha, N - 1 - i)) == Zero)
  }

  lemma PositionsDistinct(p: seq<Gf>)
    ensures forall k :: 0 <= k < |RootPositions(p, N)| ==> RootPositions(p, N)[k] < N
    ensures forall k, m :: 0 <= k < m < |RootPositions(p, N)| ==> RootPositions(p, N)[k] != RootPositions(p, N)[m]
  {
    hide Eval, Pow, Weight, RootPositions;
    RootPositionsListed(p, Marking(p), N);
  }

  // If some codeword is within reach, the recurrence finds it.
  lemma Reachable(t: nat, r: Bytes, b: Bytes, syn: seq<Gf>, lambda: seq<Gf>, l: nat)
    requires DecodesTo(t, r, b) && |syn| == 2 * t
    requires forall k :: 0 <= k < |syn| ==> syn[k] == Eval(P(Word(r)), Pow(Alpha, k + 1))
    requires Generates(lambda, l, Syndromes(syn), 2 * t) && Shortest(l, Syndromes(syn), 2 * t)
    ensures l == Distance(Word(r), Word(b)) == |RootPositions(Padded(lambda, l), N)|
    ensures forall i :: 0 <= i < N ==> (i in RootPositions(Padded(lambda, l), N) <==> Word(r)[i] != Word(b)[i])
  {
    hide GetBit, Eval, Pow, Weight, RootPositions, IsCode, Shortest, Generates, Padded, Word, P;
    var p := PaddedOf(lambda, l, Syndromes(syn), 2 * t);
    RecurrenceLocatesErrors(Word(r), Word(b), t, Syndromes(syn), lambda, l);
    var e := XorBits(Word(r), Word(b));
    assert Marks(e, p);
    RootPositionsListed(p, e, N);
    assert e[N - N..] == e;
  }

  lemma PaddedOf(lambda: seq<Gf>, l: nat, f: Series, n: nat) returns (p: seq<Gf>)
    requires Generates(lambda, l, f, n)
    ensures |lambda| <= l + 1 && p == Padded(lambda, l)
  {
    p := Padded(lambda, l);
  }

  // Exactly bounded-distance decoding: success if and only if a codeword lies within distance t, and then the
  // result is that codeword. On failure the caller's output is untouched.
  method DecodeCodeword(c: Codec, received: Bytes, previous: Bytes)
    returns (ok: bool, correctedOut: Bytes, errorsCorrected: int)
    requires c.Valid()
    ensures ok ==> |received| == |correctedOut| == 32 && DecodesTo(c.t, received, correctedOut)
    ensures ok ==> errorsCorrected == Distance(Word(received), Word(correctedOut))
    ensures !ok ==> correctedOut == previous && errorsCorrected == -1
    ensures !ok ==> forall b :: !DecodesTo(c.t, received, b)
  {
    hide GetBit, Eval, Pow, Weight, RootPositions, IsCode, Shortest, Padded, Generates, P, Codec.Valid, Codec.Tables, DecodesTo;
    ValidT(c);
    var t := c.t;
    ok, correctedOut, errorsCorrected := false, previous, -1;
    if |received| != BytesForBits(N) { WrongLength(t, received); return; }

    var syn := ComputeSyndromes(c, received);
    if forall k :: 0 <= k < |syn| ==> syn[k] == Zero {
      AlreadyCode(t, received, syn);
      return true, received, 0;
    }

    var lambda, l := ShortestRecurrence(c, syn);
    ghost var p := PaddedOf(lambda, l, Syndromes(syn), 2 * t);
    forall b: Bytes | |b| == 32 && DecodesTo(t, received, b)
      ensures 0 < l == |RootPositions(p, N)| && l <= t
      ensures forall i :: 0 <= i < N ==> (i in RootPositions(p, N) <==> Word(received)[i] != Word(b)[i])
    {
      Reachable(t, received, b, syn, lambda, l);
      WithinT(t, received, b);
      if l == 0 { SomeSyndrome(t, received, b, syn); }
    }
    if l > t { Lengths(t, received); return; }

    assert 1 <= |lambda| by { NonEmpty(lambda, l, Syndromes(syn), 2 * t); }
    var errorPositions := ChienSearch(c, lambda, l);
    if |errorPositions| == 0 || |errorPositions| != l { Lengths(t, received); return; }

    PositionsDistinct(p);
    var corrected := FlipBits(received, errorPositions);
    FlippedDistance(received, corrected, p);
    forall b: Bytes | |b| == 32 && DecodesTo(t, received, b) ensures Word(corrected) == Word(b) {
      forall i | 0 <= i < N ensures Word(corrected)[i] == Word(b)[i] {}
    }
    var genuine := IsCodeword(c, corrected);
    if !genuine {
      forall b ensures !DecodesTo(t, received, b) { CodeOf(t, received, b); }
      return;
    }
    Decoded(t, received, corrected);
    return true, corrected, |errorPositions|;
  }

  lemma NonEmpty(lambda: seq<Gf>, l: nat, f: Series, n: nat)
    requires Generates(lambda, l, f, n)
    ensures 1 <= |lambda| <= l + 1
  {}

  lemma WrongLength(t: nat, r: Bytes)
    requires |r| != 32
    ensures forall b :: !DecodesTo(t, r, b)
  {}

  lemma WithinT(t: nat, r: Bytes, b: Bytes)
    requires DecodesTo(t, r, b)
    ensures |r| == |b| == 32 && Distance(Word(r), Word(b)) <= t
  {}

  lemma Lengths(t: nat, r: Bytes)
    ensures forall b :: DecodesTo(t, r, b) ==> |b| == 32
  {}

  lemma CodeOf(t: nat, r: Bytes, b: Bytes)
    ensures DecodesTo(t, r, b) ==> |b| == 32 && IsCode(Word(b), t)
  {}

  lemma Decoded(t: nat, r: Bytes, b: Bytes)
    requires |r| == |b| == 32 && IsCode(Word(b), t) && Distance(Word(r), Word(b)) <= t && GetBit(b, N) == GetBit(r, N)
    ensures DecodesTo(t, r, b)
  {}

  lemma AlreadyCode(t: nat, r: Bytes, syn: seq<Gf>)
    requires |r| == 32 && |syn| == 2 * t
    requires forall k :: 0 <= k < |syn| ==> syn[k] == Eval(P(Word(r)), Pow(Alpha, k + 1)) && syn[k] == Zero
    ensures DecodesTo(t, r, r) && Distance(Word(r), Word(r)) == 0
  {
    hide GetBit, Eval, Pow, P, Weight;
    var w := Word(r);
    forall j | 1 <= j <= 2 * t ensures Eval(P(w), Pow(Alpha, j)) == Zero { assert syn[j - 1] == Zero; }
    WeightZero(XorBits(w, w));
  }

  // A word at distance zero from a codeword has no non-zero syndrome.
  lemma SomeSyndrome(t: nat, r: Bytes, b: Bytes, syn: seq<Gf>)
    requires DecodesTo(t, r, b) && |syn| == 2 * t && Distance(Word(r), Word(b)) == 0
    requires forall k :: 0 <= k < |syn| ==> syn[k] == Eval(P(Word(r)), Pow(Alpha, k + 1))
    ensures forall k :: 0 <= k < |syn| ==> syn[k] == Zero
  {
    hide GetBit, Eval, Pow, P, Weight;
    var e := XorBits(Word(r), Word(b));
    WeightZero(e);
    forall i | 0 <= i < N ensures Word(r)[i] == Word(b)[i] { assert !e[i]; }
    assert Word(r) == Word(b);
  }
}
