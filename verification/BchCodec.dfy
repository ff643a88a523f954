// The codec: its tables, the construction of the generator, and systematic encoding.
module BchCodec {
  import opened Gf256
  import opened GfLog
  import opened Poly
  import opened Recurrence
  import opened Bits
  import opened BchCode
  import opened BchGenerator
  import opened BchEncoding
  import opened BchDistance
  import BM = BerlekampMassey

  datatype Error = TOutOfRange | NonBinaryGenerator | TTooLarge | WrongDataLength
  datatype Result<T> = Ok(value: T) | Err(error: Error)

  const PRIMITIVE_POLY: bv16 := 0x11D

  // ---------- log and antilog tables ----------

  function Index(a: Gf): (i: nat) ensures i < 256 { a.bits as int }

  lemma IndexInjective(a: Gf, b: Gf)
    requires Index(a) == Index(b)
    ensures a == b
  {
    assert (a.bits as int) as bv8 == a.bits;
    assert (b.bits as int) as bv8 == b.bits;
  }

  // x <<= 1, reduced by the primitive polynomial on overflow.
  function TableStep(x: bv16): bv16 {
    var y := x << 1;
    if y & 0x100 != 0 then y ^ PRIMITIVE_POLY else y
  }

  lemma TableStepIsXTime(x: bv16)
    requires x < 0x100
    ensures TableStep(x) < 0x100
    ensures Gf(TableStep(x) as bv8) == XTime(Gf(x as bv8))
  {}

  ghost predicate ExpTable(table: seq<Gf>, n: nat) {
    n <= |table| && forall i :: 0 <= i < n ==> table[i] == Pow(Alpha, i)
  }

  ghost predicate LogTable(table: seq<nat>) {
    |table| == 256 && forall i: nat :: i < 255 ==> table[Index(Pow(Alpha, i))] == i
  }

  method BuildTables() returns (expTable: seq<Gf>, logTable: seq<nat>)
    ensures |expTable| == 512 && ExpTable(expTable, 512) && LogTable(logTable)
  {
    hide Pow, XTime, TableStep, Index;
    expTable := seq(512, i => Zero);
    logTable := seq(256, i => 0);
    var x: bv16 := 1;
    PowerZero();
    for i := 0 to 255
      invariant |expTable| == 512 && |logTable| == 256
      invariant x < 0x100 && Gf(x as bv8) == Pow(Alpha, i)
      invariant forall j :: 0 <= j < i ==> expTable[j] == Pow(Alpha, j)
      invariant forall j: nat :: j < i ==> logTable[Index(Pow(Alpha, j))] == j
    {
      var e := Gf(x as bv8);
      expTable := expTable[i := e];
      forall j: nat | j < i ensures Index(Pow(Alpha, j)) != Index(e) {
        if Index(Pow(Alpha, j)) == Index(e) { IndexInjective(Pow(Alpha, j), e); PowInjective(j, i); }
      }
      logTable := logTable[Index(e) := i];
      TableStepIsXTime(x);
      XTimeIsAlpha(e);
      PowStep(Alpha, i);
      x := TableStep(x);
    }
    for i := 255 to 512
      invariant |expTable| == 512
      invariant forall j :: 0 <= j < i ==> expTable[j] == Pow(Alpha, j)
    {
      PowPeriodic(i - 255, 1);
      expTable := expTable[i := expTable[i - 255]];
    }
  }

  lemma PowerZero() ensures Gf(1) == Pow(Alpha, 0) { PowBase(Alpha); OneValue(); }

  // ---------- the generator ----------

  method ConjugateClosure(t: nat) returns (roots: set<nat>)
    requires 1 <= t <= 30
    ensures roots == Closure(t)
  {
    hide Below, Conjugate, Double, InClosure;
    roots := {};
    for i := 1 to 2 * t + 1
      invariant forall r :: r in roots ==> r < 255 && InClosure(t, r)
      invariant forall k :: 1 <= k < i ==> k in roots
      invariant ClosedUnderDoubling(roots)
    {
      var c: nat := i % 255;
      StartsConjugates(t, i);
      while c !in roots
        invariant c < 255 && InClosure(t, c)
        invariant i in roots || c == i
        invariant forall r :: r in roots ==> r < 255 && InClosure(t, r)
        invariant forall k :: 1 <= k < i ==> k in roots
        invariant forall r :: r in roots ==> Double(r) in roots || Double(r) == c
        decreases Below(255) - roots
      {
        roots := roots + {c};
        DoubleInClosure(t, c);
        c := DoubleOf(c);
      }
    }
    ClosureLeast(t, roots);
  }

  function DoubleOf(c: nat): (d: nat) ensures d == Double(c) { (c * 2) % 255 }

  lemma StartsConjugates(t: nat, i: nat)
    requires 1 <= i <= 2 * t < 255
    ensures InClosure(t, i) && i % 255 == i
  {
    assert Conjugate(i, 0) == i;
  }

  lemma DoubleInClosure(t: nat, c: nat)
    requires InClosure(t, c)
    ensures InClosure(t, Double(c)) && Double(c) < 255
  {
    var i: nat, j: nat :| Conjugate(i, j) == c && 1 <= i <= 2 * t;
    assert Conjugate(i, j + 1) == Double(c);
  }

  // One more root: g(x) * (x + ar), lowest coefficient first.
  method TimesLinear(c: Codec, g: seq<Gf>, ar: Gf) returns (next: seq<Gf>)
    requires c.Tables() && |g| >= 1
    ensures Rev(next) == MulRoot(Rev(g), ar)
  {
    hide Mul, Add, MulRoot, Codec.GfMul, Codec.Tables;
    next := seq(|g| + 1, i => Zero);
    AddZero(Zero);
    for i := 0 to |g|
      invariant |next| == |g| + 1
      invariant forall k :: 0 <= k <= |g| ==> next[k] == Partial(g, ar, i, k)
    {
      ghost var before := next;
      next := next[i := Add(next[i], c.GfMul(g[i], ar))];
      next := next[i + 1 := Add(next[i + 1], g[i])];
      AddZero(Mul(g[i], ar)); AddZero(g[i]); AddComm(Mul(g[i], ar), Partial(g, ar, i, i));
      forall k | 0 <= k <= |g| ensures next[k] == Partial(g, ar, i + 1, k) {
        PartialStep(g, ar, i, k);
      }
    }
    forall k | 0 <= k <= |g| ensures Rev(next)[k] == MulRoot(Rev(g), ar)[k] {
      PartialIsMulRoot(g, ar, k);
    }
  }

  // Coefficient k after the first i coefficients of g have been spread.
  function Partial(g: seq<Gf>, ar: Gf, i: nat, k: nat): Gf
    requires i <= |g| && k <= |g|
  {
    Add(if 1 <= k <= i then g[k - 1] else Zero, if k < i then Mul(g[k], ar) else Zero)
  }

  lemma PartialStep(g: seq<Gf>, ar: Gf, i: nat, k: nat)
    requires i < |g| && k <= |g|
    ensures Partial(g, ar, i + 1, k) ==
            if k == i then Add(Partial(g, ar, i, i), Mul(g[i], ar))
            else if k == i + 1 then Add(Partial(g, ar, i, i + 1), g[i])
            else Partial(g, ar, i, k)
  {
    hide Mul, Add;
    if k == i { AddZero(if 1 <= i then g[i - 1] else Zero); }
    if k == i + 1 { AddZero(Zero); AddZero(g[i]); }
  }

  lemma PartialIsMulRoot(g: seq<Gf>, ar: Gf, k: nat)
    requires |g| >= 1 && k <= |g|
    ensures Partial(g, ar, |g|, |g| - k) == MulRoot(Rev(g), ar)[k]
  {
    hide Mul, Add;
    if k > 0 { MulComm(g[|g| - k], ar); }
  }

  method RootProduct(c: Codec, roots: set<nat>) returns (g: seq<Gf>)
    requires c.Tables()
    ensures Rev(g) == Product(AlphaPowers(Ascending(roots, 255)))
  {
    hide Mul, Add, MulRoot, Pow, Product, AlphaPowers, Ascending, Codec.GfMul;
    g := [One];
    EmptyProduct(roots);
    assert Rev(g) == [One];
    for r := 0 to 255
      invariant Rev(g) == Product(AlphaPowers(Ascending(roots, r)))
    {
      if r in roots {
        ProductOneMore(roots, r);
        g := TimesLinear(c, g, c.expTable[r]);
      } else {
        ProductOneMore(roots, r);
      }
    }
  }

  lemma EmptyProduct(roots: set<nat>)
    ensures Product(AlphaPowers(Ascending(roots, 0))) == [One]
  {
    assert AlphaPowers(Ascending(roots, 0)) == [];
  }

  lemma ProductOneMore(roots: set<nat>, r: nat)
    ensures Product(AlphaPowers(Ascending(roots, r + 1))) ==
            (var p := Product(AlphaPowers(Ascending(roots, r)));
             if r in roots then MulRoot(p, Pow(Alpha, r)) else p)
  {
    hide Mul, Add, MulRoot, Pow;
    if r in roots {
      var xs := AlphaPowers(Ascending(roots, r));
      assert AlphaPowers(Ascending(roots, r + 1)) == xs + [Pow(Alpha, r)];
      assert (xs + [Pow(Alpha, r)])[..|xs|] == xs;
    }
  }

  // ---------- the codec ----------

  datatype Codec = Codec(t: nat, k: nat, parityBits: nat, expTable: seq<Gf>, logTable: seq<nat>, generator: seq<bool>) {

    ghost predicate Tables() {
      |expTable| == 512 && ExpTable(expTable, 512) && LogTable(logTable)
    }

    // Every field is determined by t.
    ghost predicate Valid() {
      && 1 <= t <= 30
      && Tables()
      && parityBits == |Closure(t)|
      && k == N - parityBits
      && k >= 1
      && |generator| == parityBits + 1
      && IsGenerator(Rev(generator), t)
    }

    // Table products are field products.
    function GfMul(a: Gf, b: Gf): (r: Gf)
      requires Tables()
      ensures r == Mul(a, b)
    {
      TableLog(a); TableLog(b);
      MulByLogs(a, b);
      if a == Zero || b == Zero then Zero
      else expTable[logTable[Index(a)] + logTable[Index(b)]]
    }

    function GfInv(a: Gf): (r: Gf)
      requires Tables() && a != Zero
      ensures r == Inv(a)
    {
      TableLog(a);
      InvByLog(a);
      expTable[(255 - logTable[Index(a)]) % 255]
    }

    // A negative exponent gives the inverse of the positive power.
    function GfPow(a: Gf, e: int): (r: Gf)
      requires Tables()
      ensures e >= 0 ==> r == if a == Zero then Zero else Pow(a, e)
      ensures e < 0 ==> if a == Zero then r == Zero else Mul(r, Pow(a, -e)) == One
    {
      if a == Zero then Zero else
        TableLog(a);
        if e >= 0 then PowByLog(a, e); FoldedPositive(Log(a), e); expTable[Folded(logTable[Index(a)], e)]
        else NegativePow(a, e); expTable[Folded(logTable[Index(a)], e)]
    }

    lemma TableLog(a: Gf)
      requires Tables()
      ensures a != Zero ==> logTable[Index(a)] == Log(a)
    {}

    // The generator, highest coefficient first.
    function G(): seq<bool> { Rev(generator) }

    lemma Shape()
      requires Valid()
      ensures |G()| == parityBits + 1 >= 2 && G()[0]
    {
      hide IsGenerator, Closure;
      GeneratorShape(G(), t);
      ClosureSize(t);
    }

    // The register holds remainder[j] as the coefficient of x^j; it is clocked once per message bit.
    method EncodeParity(dataBits: Bytes) returns (r: Result<Bytes>)
      requires Valid()
      ensures r.Ok? <==> |dataBits| == BytesForBits(k)
      ensures r.Err? ==> r.error == WrongDataLength
      ensures r.Ok? ==> |G()| >= 2 && r.value == Pack(Register(G(), BitSeq(dataBits, k)))
    {
      hide GetBit, IsGenerator, Closure, ExpTable, LogTable, Pack;
      Shape();
      var needed := BytesForBits(k);
      if |dataBits| != needed { return Err(WrongDataLength); }
      ghost var msg := BitSeq(dataBits, k);
      var degG: nat := parityBits;
      var remainder := new bool[degG](i => false);
      for i := 0 to k
        invariant remainder.Length == degG && |G()| == degG + 1
        invariant Holds(remainder[..], Register(G(), msg[..i]))
      {
        ghost var h := Register(G(), msg[..i]);
        ClockRegister(remainder, generator, GetBit(dataBits, i), h);
        assert msg[..i + 1][..i] == msg[..i];
      }
      assert msg[..k] == msg;
      var parity := PackParity(remainder, Register(G(), msg));
      r := Ok(parity);
    }

    // The codeword keeps the message in front, is the encoder's multiple of g, and has zero syndromes.
    method EncodeCodeword(dataBits: Bytes) returns (r: Result<Bytes>)
      requires Valid()
      ensures r.Ok? <==> |dataBits| == BytesForBits(k)
      ensures r.Err? ==> r.error == WrongDataLength
      ensures r.Ok? ==> |G()| >= 2 && r.value == Pack(Encode(G(), BitSeq(dataBits, k)))
      ensures r.Ok? ==> |r.value| == 32 && IsCode(BitSeq(r.value, N), t) && BitSeq(r.value, k) == BitSeq(dataBits, k)
    {
      hide GetBit, SetBit, Filled, IsGenerator, Closure, ExpTable, LogTable, Pack, Register, IsCode;
      Shape();
      var parity := EncodeParity(dataBits);
      if parity.Err? { return parity; }
      ghost var msg := BitSeq(dataBits, k);
      ghost var w := Encode(G(), msg);
      assert |w| == N;
      var word := ZeroBytes(BytesForBits(N));
      FillStart(w);
      for i := 0 to k
        invariant Filled(word, w, i)
      {
        FillNext(word, w, i);
        word := SetBit(word, i, GetBit(dataBits, i));
      }
      for i := 0 to parityBits
        invariant Filled(word, w, k + i)
      {
        FillNext(word, w, k + i);
        word := SetBit(word, k + i, GetBit(parity.value, i));
      }
      FillDone(word, w);
      EncodedIsCode(G(), t, msg);
      PackBitSeq(w);
      r := Ok(word);
    }
  }

  // remainder[j] is the coefficient of x^j of the register h, highest degree first.
  predicate Holds(remainder: seq<bool>, h: seq<bool>) {
    |remainder| == |h| && forall j :: 0 <= j < |h| ==> remainder[j] == h[|h| - 1 - j]
  }

  // Multiplied by x, the top coefficient dropped.
  function Shifted(s: seq<bool>): (r: seq<bool>)
    requires |s| >= 1
    ensures |r| == |s|
  {
    [false] + s[..|s| - 1]
  }

  lemma ClockHolds(s: seq<bool>, generator: seq<bool>, bit: bool, h: seq<bool>)
    requires |s| >= 1 && |generator| == |s| + 1 && Holds(s, h)
    ensures Holds(if bit != s[|s| - 1] then XorBits(Shifted(s), generator[..|s|]) else Shifted(s),
                  Clock(h, Rev(generator), bit))
  {
    hide Clock, Shifted, XorBits, Rev;
    var r := if bit != s[|s| - 1] then XorBits(Shifted(s), generator[..|s|]) else Shifted(s);
    var c := Clock(h, Rev(generator), bit);
    forall j | 0 <= j < |s| ensures r[j] == c[|s| - 1 - j] {
      ClockHoldsAt(s, generator, bit, h, j);
    }
  }

  lemma ClockHoldsAt(s: seq<bool>, generator: seq<bool>, bit: bool, h: seq<bool>, j: nat)
    requires |generator| == |s| + 1 && Holds(s, h) && j < |s|
    ensures (if bit != s[|s| - 1] then XorBits(Shifted(s), generator[..|s|]) else Shifted(s))[j] ==
            Clock(h, Rev(generator), bit)[|s| - 1 - j]
  {
    hide Clock;
    var i := |s| - 1 - j;
    ClockAt(h, Rev(generator), bit, i);
    assert Rev(generator)[i + 1] == generator[j];
    assert s[|s| - 1] == h[0];
    if j > 0 { assert s[j - 1] == h[i + 1]; }
  }

  method ClockRegister(remainder: array<bool>, generator: seq<bool>, bit: bool, ghost h: seq<bool>)
    requires remainder.Length >= 1 && |generator| == remainder.Length + 1
    requires Holds(remainder[..], h)
    modifies remainder
    ensures Holds(remainder[..], Clock(h, Rev(generator), bit))
  {
    hide Holds, Clock, Shifted, Rev;
    ghost var s := remainder[..];
    ClockHolds(s, generator, bit, h);
    var feedback := bit != remainder[remainder.Length - 1];
    ShiftRegister(remainder);
    if feedback { AddGenerator(remainder, generator); }
  }

  // Parity bit p of the codeword is remainder[degG - 1 - p].
  method PackParity(remainder: array<bool>, ghost h: seq<bool>) returns (parity: Bytes)
    requires Holds(remainder[..], h)
    ensures parity == Pack(h)
  {
    hide GetBit, SetBit, Pack, Filled;
    var degG := remainder.Length;
    parity := ZeroBytes(BytesForBits(degG));
    FillStart(h);
    for p := 0 to degG
      invariant Filled(parity, h, p)
    {
      FillNext(parity, h, p);
      assert remainder[..][degG - 1 - p] == h[p];
      parity := SetBit(parity, p, remainder[degG - 1 - p]);
    }
    FillDone(parity, h);
  }

  method ShiftRegister(remainder: array<bool>)
    requires remainder.Length >= 1
    modifies remainder
    ensures remainder[..] == Shifted(old(remainder[..]))
  {
    var j := remainder.Length - 1;
    while j > 0
      invariant 0 <= j < remainder.Length
      invariant forall i :: j < i < remainder.Length ==> remainder[i] == old(remainder[i - 1])
      invariant forall i :: 0 <= i <= j ==> remainder[i] == old(remainder[i])
    {
      remainder[j] := remainder[j - 1];
      j := j - 1;
    }
    remainder[0] := false;
  }

  method AddGenerator(remainder: array<bool>, generator: seq<bool>)
    requires |generator| >= remainder.Length
    modifies remainder
    ensures remainder[..] == XorBits(old(remainder[..]), generator[..remainder.Length])
  {
    for j := 0 to remainder.Length
      invariant forall i :: 0 <= i < j ==> remainder[i] == (old(remainder[i]) != generator[i])
      invariant forall i :: j <= i < remainder.Length ==> remainder[i] == old(remainder[i])
    {
      remainder[j] := remainder[j] != generator[j];
    }
  }

  lemma ClockAt(h: seq<bool>, g: seq<bool>, b: bool, i: nat)
    requires |h| >= 1 && |g| == |h| + 1 && i < |h|
    ensures Clock(h, g, b)[i] == ((i + 1 < |h| && h[i + 1]) != ((b != h[0]) && g[i + 1]))
  {}

  lemma MulByLogs(a: Gf, b: Gf)
    ensures Mul(a, b) == if a == Zero || b == Zero then Zero else Pow(Alpha, Log(a) + Log(b))
  {
    hide Mul, Pow;
    if a == Zero { ZeroMul(b); } else if b == Zero { MulZero(a); } else { PowAdd(Alpha, Log(a), Log(b)); }
  }

  lemma InvByLog(a: Gf)
    requires a != Zero
    ensures Inv(a) == Pow(Alpha, (255 - Log(a)) % 255)
  {
    hide Mul, Pow;
    var i := Log(a);
    PowMod(255 - i);
    PowAdd(Alpha, i, 255 - i);
    AlphaValues();
    InvMul(a);
    MulCancel(a, Inv(a), Pow(Alpha, 255 - i));
  }

  // The remainder of C++, which has the sign of the dividend.
  function TruncMod(x: int, m: nat): int
    requires m > 0
  {
    if x >= 0 then x % m else -((-x) % m)
  }

  // The index of a power: the remainder of log * e, moved into 0..254.
  function Folded(log: nat, e: int): (i: nat)
    ensures i < 255
  {
    var ex := TruncMod(log * e, 255);
    if ex < 0 then ex + 255 else ex
  }

  lemma FoldedPositive(log: nat, e: nat)
    ensures Folded(log, e) == (log * e) % 255
  {
    assert log * e >= 0;
  }

  lemma FoldedNegative(log: nat, e: int)
    ensures Folded(log, e) + (log * -e) % 255 in {0, 255}
  {
    assert log * -e == -(log * e);
  }

  lemma NegativePow(a: Gf, e: int)
    requires a != Zero && e < 0
    ensures Mul(Pow(Alpha, Folded(Log(a), e)), Pow(a, -e)) == One
  {
    hide Mul, Pow, Folded, TruncMod;
    PowByLog(a, -e);
    FoldedNegative(Log(a), e);
    PowAdd(Alpha, Folded(Log(a), e), (Log(a) * -e) % 255);
    PowBase(Alpha);
    AlphaValues();
  }

  lemma PowByLog(a: Gf, e: nat)
    requires a != Zero
    ensures Pow(a, e) == Pow(Alpha, (Log(a) * e) % 255)
  {
    hide Mul, Pow;
    PowTimes(Alpha, Log(a), e);
    PowMod(Log(a) * e);
  }

  method Construct(t: int) returns (r: Result<Codec>)
    ensures r.Ok? <==> 1 <= t <= 30
    ensures r.Ok? ==> r.value.Valid() && r.value.t == t
    ensures r.Err? ==> r.error == TOutOfRange
  {
    hide Product, Pow, ExpTable, LogTable, Closure, Binary;
    if t < 1 || t > 30 { return Err(TOutOfRange); }
    var expTable, logTable := BuildTables();
    var roots := ConjugateClosure(t);
    var g := RootProduct(Codec(t, 0, 0, expTable, logTable, []), roots);
    GeneratorFacts(t, g);
    if exists i :: 0 <= i < |g| && g[i] != Zero && g[i] != One { return Err(NonBinaryGenerator); }
    var parityBits := |g| - 1;
    var k := N - parityBits;
    if k <= 0 { return Err(TTooLarge); }
    var generator := seq(|g|, i requires 0 <= i < |g| => LowBit(g[i]));
    GeneratorBits(t, g, generator);
    r := Ok(Codec(t, k, parityBits, expTable, logTable, generator));
  }

  function LowBit(a: Gf): bool { a.bits & 1 != 0 }

  // The product over the closure is binary and leaves at least one message bit.
  lemma GeneratorFacts(t: nat, g: seq<Gf>)
    requires 1 <= t <= 30 && Rev(g) == Product(Roots(t))
    ensures |g| == |Closure(t)| + 1 && |Closure(t)| <= 254
    ensures forall i :: 0 <= i < |g| ==> g[i] == Zero || g[i] == One
  {
    hide Product, Closure;
    RootsProperties(t);
    ClosureSize(t);
    var p := Product(Roots(t));
    forall i | 0 <= i < |g| ensures g[i] == Zero || g[i] == One { assert g[i] == p[|g| - 1 - i]; }
  }

  lemma GeneratorBits(t: nat, g: seq<Gf>, generator: seq<bool>)
    requires Rev(g) == Product(Roots(t)) && |generator| == |g|
    requires forall i :: 0 <= i < |g| ==> g[i] == Zero || g[i] == One
    requires forall i :: 0 <= i < |g| ==> generator[i] == LowBit(g[i])
    ensures IsGenerator(Rev(generator), t)
  {
    hide Product, Roots;
    forall i | 0 <= i < |g| ensures P(Rev(generator))[i] == Rev(g)[i] { LowBitOf(g[|g| - 1 - i]); }
    assert P(Rev(generator)) == Rev(g);
  }

  lemma LowBitOf(a: Gf)
    requires a == Zero || a == One
    ensures Bit(LowBit(a)) == a
  {}
}
