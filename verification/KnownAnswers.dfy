// Worked examples: the byte strings and code words that fix orders, widths and constants.
module KnownAnswers {
  import opened Wrappers
  import opened Bits
  import opened Encoding
  import opened Gf256
  import opened GfLog
  import opened Poly
  import opened BchCode
  import opened BchGenerator
  import opened BchEncoding
  import C = Credentials
  import K = OrderedKeys
  import S = SpongentSuite
  import FE = FuzzyExtractor
  import I = InnerCode

  // ---------- encodings ----------

  lemma Bytes012() ensures ByteOf(0) == 0 && ByteOf(1) == 1 && ByteOf(2) == 2 && ByteOf(7) == 7 {}

  // Sixteen-bit numbers are big-endian.
  lemma BigEndian()
    ensures U16be(0x0102) == [0x01, 0x02]
    ensures ReadU16be([0x01, 0x02], 0) == Some(0x0102)
  {
    hide ByteOf, NatOf;
    Bytes012();
    NatOfByteOf(1);
    NatOfByteOf(2);
  }

  lemma Prefixes(x: bv8, y: bv8)
    ensures LengthPrefixed([x]) == [0, 1, x] && LengthPrefixed([x, y]) == [0, 2, x, y] && LengthPrefixed([]) == [0, 0]
  {
    hide ByteOf;
    Bytes012();
  }

  lemma InOrder()
    ensures K.Ascending({7, 2}) == [2, 7]
  {
    hide K.Ascending;
    var r := K.Ascending({7, 2});
    assert |{7, 2}| == 2;
    assert 2 in r && 7 in r;
  }

  // A package for two peers, one of them without a known identity: the count, the peers in ascending order, each with
  // credential and identity, and the new identity.
  lemma PackedPackage()
    ensures C.Pack(map[7 := [0xAA, 0xBB], 2 := [0xCC]], map[7 := [0xDD]], [0xEE]) ==
            [0, 2] + (([0, 2] + [0, 1, 0xCC] + [0, 0]) + ([0, 7] + [0, 2, 0xAA, 0xBB] + [0, 1, 0xDD])) + [0, 1, 0xEE]
  {
    hide ByteOf, K.Ascending, LengthPrefixed, C.Entries, C.Entry;
    var creds: map<int, Bytes> := map[7 := [0xAA, 0xBB], 2 := [0xCC]];
    var tids: map<int, Bytes> := map[7 := [0xDD]];
    assert creds.Keys == {7, 2} && |creds| == |creds.Keys|;
    InOrder();
    Bytes012();
    Prefixes(0xEE, 0);
    PackedEntries(creds, tids);
  }

  lemma PackedEntries(creds: map<int, Bytes>, tids: map<int, Bytes>)
    requires creds == map[7 := [0xAA, 0xBB], 2 := [0xCC]] && tids == map[7 := [0xDD]]
    ensures C.Entries([2, 7], creds, tids) == ([0, 2] + [0, 1, 0xCC] + [0, 0]) + ([0, 7] + [0, 2, 0xAA, 0xBB] + [0, 1, 0xDD])
  {
    hide C.Entry;
    FirstEntry();
    SecondEntry();
    assert [2, 7][..1] == [2] && [2][..0] == [];
    assert C.Entries([], creds, tids) == [];
    assert C.Entries([2], creds, tids) == [] + C.Entry(2, [0xCC], []);
    assert C.Entries([2, 7], creds, tids) == C.Entries([2], creds, tids) + C.Entry(7, [0xAA, 0xBB], [0xDD]);
  }

  lemma FirstEntry()
    ensures C.Entry(2, [0xCC], []) == [0, 2] + [0, 1, 0xCC] + [0, 0]
  {
    hide ByteOf, LengthPrefixed;
    Bytes012();
    Prefixes(0xCC, 0);
  }

  lemma SecondEntry()
    ensures C.Entry(7, [0xAA, 0xBB], [0xDD]) == [0, 7] + [0, 2, 0xAA, 0xBB] + [0, 1, 0xDD]
  {
    hide ByteOf, LengthPrefixed;
    Bytes012();
    Prefixes(0xAA, 0xBB);
    Prefixes(0xDD, 0);
  }

  // What the constrained suite absorbs: the kind of request, the version, then the fields in order.
  lemma AbsorbedStrings(d: S.Domains, a: bv8, b: bv8, c: bv8, e: bv8)
    ensures S.Absorbed(d, S.HashRequest([a])) == [d.hash] + [0, 1, a]
    ensures S.Absorbed(d, S.MacRequest([a], [b])) == [d.mac] + ([1] + ([0, 1, a] + [b]))
    ensures S.Absorbed(d, S.KdfRequest([a], [b], [c], [e], 0x0102)) ==
            [d.kdf] + ([1] + ([0, 1, a] + ([0, 1, b] + ([0, 1, c] + ([0, 1, e] + [1, 2])))))
  {
    hide LengthPrefixed, U16be;
    Prefixes(a, 0);
    Prefixes(b, 0);
    Prefixes(c, 0);
    Prefixes(e, 0);
    BigEndian();
  }

  // ---------- the code that corrects one error ----------

  lemma ClosureOfTwo()
    ensures Closure(1) == {1, 2, 4, 8, 16, 32, 64, 128} && |Closure(1)| == 8
  {
    hide Closure;
    var s: set<nat> := {1, 2, 4, 8, 16, 32, 64, 128};
    ClosureLeast(1, s);
    forall j: nat | j < 8 ensures Conjugate(1, j) in Closure(1) { ClosureMember(1, 1, j); }
    Conjugates();
    assert s <= Closure(1);
  }

  lemma Conjugates()
    ensures Conjugate(1, 0) == 1 && Conjugate(1, 1) == 2 && Conjugate(1, 2) == 4 && Conjugate(1, 3) == 8
    ensures Conjugate(1, 4) == 16 && Conjugate(1, 5) == 32 && Conjugate(1, 6) == 64 && Conjugate(1, 7) == 128
  {}

  lemma Appended(a: seq<bool>, b: bool, v: bv8, w: bv8)
    requires Eval(P(a), Alpha) == Gf(v) && Gf(w) == Add(XTime(Gf(v)), Bit(b))
    ensures Eval(P(a + [b]), Alpha) == Gf(w)
  {
    hide Add, Mul, Eval, P, Bit, XTime;
    EvalAppendBit(a, b, Alpha);
    XTimeIsAlpha(Gf(v));
  }

  // 246 zeros and the primitive polynomial's nine coefficients, highest first.
  function PrimitiveWord(): seq<bool> {
    Falses(246) + [true] + [false] + [false] + [false] + [true] + [true] + [true] + [false] + [true]
  }

  lemma VanishesAtAlpha()
    ensures Eval(P(PrimitiveWord()), Alpha) == Zero
  {
    hide Eval, P, Falses;
    EvalFalses(246, Alpha);
    var w := Falses(246);
    Appended(w, true, 0x00, 0x01); w := w + [true];
    Appended(w, false, 0x01, 0x02); w := w + [false];
    Appended(w, false, 0x02, 0x04); w := w + [false];
    Appended(w, false, 0x04, 0x08); w := w + [false];
    Appended(w, true, 0x08, 0x11); w := w + [true];
    Appended(w, true, 0x11, 0x23); w := w + [true];
    Appended(w, true, 0x23, 0x47); w := w + [true];
    Appended(w, false, 0x47, 0x8e); w := w + [false];
    Appended(w, true, 0x8e, 0x00);
  }

  lemma PrimitiveIsCode()
    ensures IsCode(PrimitiveWord(), 1)
  {
    hide Eval, P, Pow, Falses;
    VanishesAtAlpha();
    VanishesAtSquares(PrimitiveWord(), Alpha, 0);
    VanishesAtSquares(PrimitiveWord(), Alpha, 1);
    assert TwoTo(0) == 1 && TwoTo(1) == 2;
    forall j | 1 <= j <= 2 ensures Eval(P(PrimitiveWord()), Pow(Alpha, j)) == Zero {}
  }

  // With t = 1 the message whose last bit alone is set gets the parity 00011101: the generator is the primitive
  // polynomial x^8 + x^4 + x^3 + x^2 + 1, and its lowest coefficient comes last.
  lemma OneErrorCodeword(g: seq<bool>)
    requires IsGenerator(g, 1)
    ensures |g| == 9
    ensures Encode(g, Falses(246) + [true]) ==
            Falses(246) + [true] + [false, false, false, true, true, true, false, true]
  {
    hide IsGenerator, IsCode, Encode, Closure, Eval;
    ClosureOfTwo();
    PrimitiveIsCode();
    CodeIsEncoded(g, 1, PrimitiveWord());
    assert PrimitiveWord()[..247] == Falses(246) + [true];
    assert PrimitiveWord() == Falses(246) + [true] + [false, false, false, true, true, true, false, true];
  }

  // Two blocks of 255 bits, half a bit of entropy each, less 8 published bits a block: 239 bits are left, enough for a
  // 128-bit key with a loss exponent of 55, and not of 56.
  lemma EntropyBudget(eps: int)
    ensures FE.BudgetMet(FE.Params(255, 1, 2, 1, 128, eps, 16, 0.5, true)) <==> eps <= 55
  {
    hide Closure;
    ClosureOfTwo();
  }

  // Of the copies 0, 1, 1 the first is the reference, and both others differ from it.
  lemma FirstCopyIsReference()
    ensures I.References([0x60], 1, 3) == [false] && I.Offsets([0x60], 1, 3) == [true, true]
  {
    hide I.OffsetAt, I.Offset;
    Copies();
    I.OffsetAtIs([0x60], 3, 0, 1);
    I.OffsetAtIs([0x60], 3, 0, 2);
  }

  lemma Copies()
    ensures !I.At([0x60], 0) && I.At([0x60], 1) && I.At([0x60], 2)
    ensures I.Offset([0x60], 3, 0, 1) && I.Offset([0x60], 3, 0, 2)
  {}
}
