// The code-offset fuzzy extractor over the BCH codec, with the optional [3,1,3] inner code.
module FuzzyExtractor {
  import opened Wrappers
  import opened Bits
  import opened Encoding
  import opened BchCode
  import opened BchGenerator
  import opened BchEncoding
  import opened BchDistance
  import opened BchCodec
  import opened BchDecoder
  import opened InnerCode

  // The cryptographic suite, used only through what its functions return.
  datatype Suite = Suite(extract: (Bytes, Bytes) -> Bytes, kdf: (Bytes, Bytes, string, Bytes, nat) -> Bytes) {
    ghost predicate Valid() {
      forall ikm, salt, purpose, info, n: nat :: n <= 0xFFFF ==> |kdf(ikm, salt, purpose, info, n)| == n
    }
  }

  const LABEL_FE_CODEWORD := "uavauth/v1/fe-codeword"
  const LABEL_FE_ROOT := "uavauth/v1/fe-root"

  datatype Params = Params(blockBits: int, bchT: int, numBlocks: int, repFactor: int, keyBits: nat, epsLog2: int,
                           seedBytes: int, assumedMinEntropyRate: real, checkBudget: bool)

  datatype HelperData = HelperData(sketch: seq<Bytes>, repOffsets: Bytes, seed: Bytes, params: Params)

  datatype Stats = Stats(blocksTotal: int, blocksFailed: nat, errorsCorrectedTotal: int, errorsPerBlockMax: int)

  datatype GenResult = GenResult(helper: HelperData, mk: Bytes, ok: bool, stats: Stats)
  datatype RepResult = RepResult(mk: Bytes, ok: bool, stats: Stats)

  datatype FeError = BadRepFactor | BadNumBlocks | SeedTooShort | BadCodec | BadBlockLength | BudgetNotMet
                   | WrongSeedLength | WrongResponseLength
  datatype FeResult<T> = FeOk(value: T) | FeErr(error: FeError)

  // ---------- specification ----------

  // The 255 outer bits of block b, packed.
  function Block(outer: Bytes, b: nat): (r: Bytes)
    requires b * N + N <= 8 * |outer|
    ensures |r| == 32
  {
    Pack(Slice(outer, b * N, N))
  }

  ghost predicate Covers(outer: Bytes, n: nat) { n * N <= 8 * |outer| }

  lemma CoversBlock(outer: Bytes, n: nat, b: nat)
    requires Covers(outer, n) && b < n
    ensures b * N + N <= 8 * |outer|
  {}

  // The code's word hidden in block b: derived from the seed and the block index alone.
  function CodewordSeed(suite: Suite, seed: Bytes, b: nat, n: nat): Bytes {
    suite.kdf(seed, [], LABEL_FE_CODEWORD, U16be(b), n)
  }

  datatype Extractor = Extractor(params: Params, suite: Suite, codec: Codec) {

    ghost predicate Valid() {
      && (params.repFactor == 1 || params.repFactor == 3)
      && params.numBlocks >= 1
      && params.seedBytes >= 16
      && params.blockBits == N
      && codec.Valid() && codec.t == params.bchT
      && suite.Valid()
    }

    function OuterBits(): nat requires params.numBlocks >= 1 { params.numBlocks * N }

    function RequiredPufBits(): nat requires params.numBlocks >= 1 && params.repFactor >= 1 {
      OuterBits() * params.repFactor
    }

    // Enrolled outer bits.
    function EnrolledOuter(response: Bytes): Bytes
      requires params.numBlocks >= 1 && params.repFactor >= 1
    {
      if params.repFactor > 1 then Pack(References(response, OuterBits(), params.repFactor)) else response
    }

    function PublishedOffsets(response: Bytes): Bytes
      requires params.numBlocks >= 1 && params.repFactor >= 1
    {
      if params.repFactor > 1 then Pack(Offsets(response, OuterBits(), params.repFactor)) else []
    }

    // Outer bits measured in the field.
    function MeasuredOuter(noisy: Bytes, offsets: Bytes): Bytes
      requires params.numBlocks >= 1 && params.repFactor >= 1
    {
      if params.repFactor > 1 then Pack(Votes(noisy, offsets, OuterBits(), params.repFactor)) else noisy
    }

    ghost function BlockCodeword(seed: Bytes, b: nat): (c: Bytes)
      requires Valid()
      ensures |c| == 32 && IsCode(Word(c), codec.t)
    {
      codec.Shape();
      EncodedIsCode(codec.G(), codec.t, BitSeq(CodewordSeed(suite, seed, b, BytesForBits(codec.k)), codec.k));
      var w := Encode(codec.G(), BitSeq(CodewordSeed(suite, seed, b, BytesForBits(codec.k)), codec.k));
      PackBitSeq(w);
      Pack(w)
    }

    // Final key from the recovered outer response.
    function KeyFrom(seed: Bytes, recovered: Bytes): Bytes {
      var key := suite.extract(seed, recovered);
      var keyBytes := params.keyBits / 8;
      Resize(if |key| < keyBytes then suite.kdf(key, seed, LABEL_FE_ROOT, [], keyBytes) else key, keyBytes)
    }
  }

  // The first n bytes, or all of them and zeros.
  function Resize(b: Bytes, n: nat): (r: Bytes)
    ensures |r| == n
    ensures n <= |b| ==> r <= b
    ensures n > |b| ==> b <= r && forall i :: |b| <= i < n ==> r[i] == 0
  {
    if |b| >= n then b[..n] else b + ZeroBytes(n - |b|)
  }

  // The first n enrolled blocks.
  function Blocks(outer: Bytes, n: nat): (bs: seq<Bytes>)
    requires n * N <= 8 * |outer|
    ensures |bs| == n && forall b :: 0 <= b < n ==> b * N + N <= 8 * |outer| && bs[b] == Block(outer, b)
  {
    if n == 0 then [] else Blocks(outer, n - 1) + [Block(outer, n - 1)]
  }

  function Concat(bs: seq<Bytes>): Bytes {
    if |bs| == 0 then [] else Concat(bs[..|bs| - 1]) + bs[|bs| - 1]
  }

  ghost function Sketch(x: Extractor, outer: Bytes, seed: Bytes, b: nat): (s: Bytes)
    requires x.Valid() && b * N + N <= 8 * |outer|
    ensures |s| == 32
  {
    XorBytes(Block(outer, b), x.BlockCodeword(seed, b))
  }

  ghost function Sketches(x: Extractor, outer: Bytes, seed: Bytes, n: nat): (s: seq<Bytes>)
    requires x.Valid() && n * N <= 8 * |outer|
    ensures |s| == n
  {
    if n == 0 then [] else Sketches(x, outer, seed, n - 1) + [Sketch(x, outer, seed, n - 1)]
  }

  ghost function GenHelper(x: Extractor, response: Bytes, seed: Bytes): HelperData
    requires x.Valid() && Covers(x.EnrolledOuter(response), x.params.numBlocks)
  {
    HelperData(Sketches(x, x.EnrolledOuter(response), seed, x.params.numBlocks), x.PublishedOffsets(response), seed, x.params)
  }

  function GenKey(x: Extractor, response: Bytes, seed: Bytes): Bytes
    requires x.params.numBlocks >= 1 && x.params.repFactor >= 1
    requires x.params.numBlocks * N <= 8 * |x.EnrolledOuter(response)|
  {
    x.KeyFrom(seed, Concat(Blocks(x.EnrolledOuter(response), x.params.numBlocks)))
  }

  // What one block and its sketch recover: the sketch plus the codeword within distance t of their sum.
  ghost function RecoverBlock(t: nat, block: Bytes, sketch: Bytes): Option<Bytes>
    requires |block| == 32
  {
    if |sketch| == 32 && exists c :: DecodesTo(t, XorBytes(block, sketch), c) then
      var c :| DecodesTo(t, XorBytes(block, sketch), c);
      Some(XorBytes(sketch, c))
    else None
  }

  ghost function RecoverBlocks(t: nat, outer: Bytes, sketch: seq<Bytes>, n: nat): (r: Option<seq<Bytes>>)
    requires n <= |sketch| && n * N <= 8 * |outer|
    ensures r.Some? ==> |r.value| == n
  {
    if n == 0 then Some([]) else
      var before := RecoverBlocks(t, outer, sketch, n - 1);
      var last := RecoverBlock(t, Block(outer, n - 1), sketch[n - 1]);
      if before.Some? && last.Some? then Some(before.value + [last.value]) else None
  }

  // ---------- one block ----------

  lemma BlockWord(outer: Bytes, b: nat)
    requires b * N + N <= 8 * |outer|
    ensures Word(Block(outer, b)) == Slice(outer, b * N, N)
    ensures !GetBit(Block(outer, b), N)
  {
    hide GetBit, Pack;
    PackBitSeq(Slice(outer, b * N, N));
  }

  // Adding the same string to both words moves neither closer.
  lemma XorKeepsDistance(a: Bytes, b: Bytes, s: Bytes)
    requires |a| == |b| == |s| == 32
    ensures Distance(Word(XorBytes(a, s)), Word(XorBytes(b, s))) == Distance(Word(a), Word(b))
  {
    hide GetBit, XorBytes, Weight;
    assert XorBits(Word(XorBytes(a, s)), Word(XorBytes(b, s))) == XorBits(Word(a), Word(b));
  }

  lemma XorTwice(a: Bytes, b: Bytes)
    requires |a| == |b|
    ensures XorBytes(XorBytes(a, b), b) == a
    ensures XorBytes(a, b) == XorBytes(b, a)
  {
    hide GetBit, XorBytes;
    BitsDetermine(XorBytes(XorBytes(a, b), b), a);
    BitsDetermine(XorBytes(a, b), XorBytes(b, a));
  }

  // Whatever is recovered lies within distance t of the measured block and differs from the sketch by a codeword.
  lemma RecoveredIsNear(t: nat, block: Bytes, sketch: Bytes)
    requires |block| == 32 && RecoverBlock(t, block, sketch).Some?
    ensures var r := RecoverBlock(t, block, sketch).value;
            |sketch| == |r| == 32 && Distance(Word(block), Word(r)) <= t && IsCode(Word(XorBytes(sketch, r)), t)
            && DecodesTo(t, XorBytes(block, sketch), XorBytes(sketch, r))
            && Distance(Word(XorBytes(block, sketch)), Word(XorBytes(sketch, r))) == Distance(Word(block), Word(r))
  {
    hide GetBit, XorBytes, Distance, IsCode;
    var r := RecoverBlock(t, block, sketch).value;
    var c :| DecodesTo(t, XorBytes(block, sketch), c) && r == XorBytes(sketch, c);
    XorTwice(sketch, c); XorTwice(c, sketch); XorTwice(r, sketch);
    XorTwice(block, sketch);
    XorKeepsDistance(block, r, sketch);
  }

  lemma RecoverFrom(t: nat, block: Bytes, sketch: Bytes, c: Bytes)
    requires |block| == |sketch| == 32 && DecodesTo(t, XorBytes(block, sketch), c)
    ensures RecoverBlock(t, block, sketch) == Some(XorBytes(sketch, c))
  {
    hide DecodesTo, XorBytes;
    forall d | DecodesTo(t, XorBytes(block, sketch), d) ensures d == c {
      DecodesToUnique(t, XorBytes(block, sketch), c, d);
    }
  }

  // The sketch of an enrolled block recovers that block from a measurement if and only if at most t bits flipped.
  lemma BlockRecoveredIffNear(t: nat, enrolled: Bytes, measured: Bytes, codeword: Bytes)
    requires |enrolled| == |measured| == |codeword| == 32 && IsCode(Word(codeword), t)
    requires GetBit(enrolled, N) == GetBit(measured, N)
    ensures RecoverBlock(t, measured, XorBytes(enrolled, codeword)) == Some(enrolled) <==>
            Distance(Word(measured), Word(enrolled)) <= t
  {
    hide GetBit, XorBytes, Weight, IsCode, Distance, RecoverBlock;
    var s := XorBytes(enrolled, codeword);
    if Distance(Word(measured), Word(enrolled)) <= t {
      XorTwice(codeword, enrolled); XorTwice(enrolled, codeword);
      XorKeepsDistance(measured, enrolled, s);
      XorTwice(enrolled, s);
      assert XorBytes(enrolled, s) == codeword;
      assert GetBit(XorBytes(measured, s), N) == GetBit(codeword, N);
      RecoverFrom(t, measured, s, codeword);
      XorTwice(s, codeword);
    }
    if RecoverBlock(t, measured, s) == Some(enrolled) { RecoveredIsNear(t, measured, s); }
  }

  // ---------- all blocks ----------

  // Every block of the measured outer bits is within distance t of the enrolled one.
  ghost predicate AllNear(t: nat, enrolled: Bytes, measured: Bytes, n: nat)
    requires Covers(enrolled, n) && Covers(measured, n)
  {
    forall b :: 0 <= b < n ==>
      (b * N + N <= 8 * |enrolled| && b * N + N <= 8 * |measured| &&
       Distance(Slice(measured, b * N, N), Slice(enrolled, b * N, N)) <= t)
  }

  lemma SketchRecovers(x: Extractor, enrolled: Bytes, measured: Bytes, seed: Bytes, b: nat)
    requires x.Valid() && b * N + N <= 8 * |enrolled| && b * N + N <= 8 * |measured|
    ensures RecoverBlock(x.codec.t, Block(measured, b), Sketch(x, enrolled, seed, b)) == Some(Block(enrolled, b)) <==>
            Distance(Slice(measured, b * N, N), Slice(enrolled, b * N, N)) <= x.codec.t
  {
    hide GetBit, XorBytes, IsCode, Distance, RecoverBlock, Block, Slice, Extractor.BlockCodeword, Codec.Valid;
    BlockWord(enrolled, b);
    BlockWord(measured, b);
    BlockRecoveredIffNear(x.codec.t, Block(enrolled, b), Block(measured, b), x.BlockCodeword(seed, b));
  }

  // Helper data made at enrolment recovers the enrolled response if and only if every block is near enough.
  lemma {:induction false} ResponseRecoveredIffNear(x: Extractor, enrolled: Bytes, measured: Bytes, seed: Bytes, n: nat)
    requires x.Valid() && Covers(enrolled, n) && Covers(measured, n)
    ensures RecoverBlocks(x.codec.t, measured, Sketches(x, enrolled, seed, n), n) == Some(Blocks(enrolled, n)) <==>
            AllNear(x.codec.t, enrolled, measured, n)
  {
    hide GetBit, XorBytes, IsCode, Distance, RecoverBlock, Block, Slice, Sketch, Extractor.Valid;
    if n > 0 {
      ResponseRecoveredIffNear(x, enrolled, measured, seed, n - 1);
      SketchRecovers(x, enrolled, measured, seed, n - 1);
      var s := Sketches(x, enrolled, seed, n);
      assert s[..n - 1] == Sketches(x, enrolled, seed, n - 1);
      RecoverPrefix(x.codec.t, measured, s, Sketches(x, enrolled, seed, n - 1), n - 1);
      AllNearStep(x.codec.t, enrolled, measured, n);
      var before := RecoverBlocks(x.codec.t, measured, s, n - 1);
      var last := RecoverBlock(x.codec.t, Block(measured, n - 1), s[n - 1]);
      if before.Some? && last.Some? {
        SnocEqual(before.value, last.value, Blocks(enrolled, n - 1), Block(enrolled, n - 1));
      }
    }
  }

  lemma SnocEqual<T>(a: seq<T>, x: T, b: seq<T>, y: T)
    ensures a + [x] == b + [y] <==> a == b && x == y
  {
    if a + [x] == b + [y] {
      assert (a + [x])[..|a|] == a && (b + [y])[..|b|] == b;
      assert (a + [x])[|a|] == x && (b + [y])[|b|] == y;
    }
  }

  lemma AllNearStep(t: nat, enrolled: Bytes, measured: Bytes, n: nat)
    requires n > 0 && Covers(enrolled, n) && Covers(measured, n)
    ensures AllNear(t, enrolled, measured, n) <==>
            (AllNear(t, enrolled, measured, n - 1) &&
             Distance(Slice(measured, (n - 1) * N, N), Slice(enrolled, (n - 1) * N, N)) <= t)
  {
    hide Distance, Slice;
    forall b | 0 <= b < n ensures b * N + N <= 8 * |enrolled| && b * N + N <= 8 * |measured| {
      CoversBlock(enrolled, n, b); CoversBlock(measured, n, b);
    }
  }

  lemma {:induction false} RecoverPrefix(t: nat, outer: Bytes, s: seq<Bytes>, s': seq<Bytes>, n: nat)
    requires n <= |s| && n <= |s'| && s[..n] == s'[..n] && Covers(outer, n)
    ensures RecoverBlocks(t, outer, s, n) == RecoverBlocks(t, outer, s', n)
  {
    hide RecoverBlock, Block;
    if n > 0 {
      assert s[n - 1] == s[..n][n - 1] && s'[n - 1] == s'[..n][n - 1];
      assert s[..n - 1] == s[..n][..n - 1] && s'[..n - 1] == s'[..n][..n - 1];
      RecoverPrefix(t, outer, s, s', n - 1);
    }
  }

  // ---------- what rep returns ----------

  ghost predicate WellShaped(x: Extractor, noisy: Bytes, helper: HelperData)
    requires x.Valid()
  {
    && |noisy| == BytesForBits(x.RequiredPufBits())
    && |helper.sketch| == x.params.numBlocks
    && |helper.seed| == x.params.seedBytes
    && (x.params.repFactor > 1 ==> |helper.repOffsets| == BytesForBits(x.OuterBits() * (x.params.repFactor - 1)))
  }

  lemma OuterCovers(x: Extractor, noisy: Bytes, offsets: Bytes)
    requires x.Valid() && |noisy| == BytesForBits(x.RequiredPufBits())
    ensures Covers(x.MeasuredOuter(noisy, offsets), x.params.numBlocks)
    ensures Covers(x.EnrolledOuter(noisy), x.params.numBlocks)
  {
    hide GetBit, Pack, Codec.Valid;
  }

  // The key, if every block is recovered; nothing otherwise.
  ghost function RepKey(x: Extractor, noisy: Bytes, helper: HelperData): Option<Bytes>
    requires x.Valid()
  {
    if WellShaped(x, noisy, helper) then
      OuterCovers(x, noisy, helper.repOffsets);
      var bs := RecoverBlocks(x.codec.t, x.MeasuredOuter(noisy, helper.repOffsets), helper.sketch, x.params.numBlocks);
      if bs.Some? then Some(x.KeyFrom(helper.seed, Concat(bs.value))) else None
    else None
  }

  // No key comes out of inputs of a wrong shape.
  lemma RepShape(x: Extractor, noisy: Bytes, helper: HelperData)
    requires x.Valid() && RepKey(x, noisy, helper).Some?
    ensures |noisy| == BytesForBits(x.params.numBlocks * 255 * x.params.repFactor) && |helper.sketch| == x.params.numBlocks
    ensures |helper.seed| == x.params.seedBytes && forall b :: 0 <= b < |helper.sketch| ==> |helper.sketch[b]| == 32
    ensures x.params.repFactor == 3 ==> |helper.repOffsets| == BytesForBits(x.params.numBlocks * 255 * 2)
    ensures |RepKey(x, noisy, helper).value| == x.params.keyBits / 8
  {
    hide GetBit, Pack, Codec.Valid, RecoverBlocks, Concat, Extractor.MeasuredOuter;
    OuterCovers(x, noisy, helper.repOffsets);
    SketchSizes(x.codec.t, x.MeasuredOuter(noisy, helper.repOffsets), helper.sketch, x.params.numBlocks);
  }

  lemma {:induction false} SketchSizes(t: nat, outer: Bytes, sketch: seq<Bytes>, n: nat)
    requires n <= |sketch| && Covers(outer, n) && RecoverBlocks(t, outer, sketch, n).Some?
    ensures forall b :: 0 <= b < n ==> |sketch[b]| == 32
  {
    hide Block;
    if n > 0 { SketchSizes(t, outer, sketch, n - 1); }
  }

  // Accounting over the first n blocks, as the diagnostics report it.
  ghost function StatsAfter(t: nat, outer: Bytes, sketch: seq<Bytes>, n: nat, total: int): Stats
    requires n <= |sketch| && n * N <= 8 * |outer|
  {
    if n == 0 then Stats(total, 0, 0, 0) else
      var st := StatsAfter(t, outer, sketch, n - 1, total);
      var block := Block(outer, n - 1);
      var r := RecoverBlock(t, block, sketch[n - 1]);
      if r.None? then st.(blocksFailed := st.blocksFailed + 1) else
        RecoveredIsNear(t, block, sketch[n - 1]);
        var errors := Distance(Word(block), Word(r.value));
        st.(errorsCorrectedTotal := st.errorsCorrectedTotal + errors,
            errorsPerBlockMax := if errors > st.errorsPerBlockMax then errors else st.errorsPerBlockMax)
  }

  // How many sketches come before the first one that has not the size of a block.
  function FirstMisfit(sketch: seq<Bytes>): (n: nat)
    ensures n <= |sketch| && (n < |sketch| ==> |sketch[n]| != 32)
    ensures forall b :: 0 <= b < n ==> |sketch[b]| == 32
  {
    if |sketch| == 0 || |sketch[0]| != 32 then 0 else 1 + FirstMisfit(sketch[1..])
  }

  // Hamming distance between the outer bits and the recovered blocks.
  function TotalDistance(outer: Bytes, bs: seq<Bytes>): nat
    requires |bs| * N <= 8 * |outer| && forall b :: 0 <= b < |bs| ==> |bs[b]| == 32
  {
    if |bs| == 0 then 0 else
      var n := |bs| - 1;
      TotalDistance(outer, bs[..n]) + Distance(Slice(outer, n * N, N), Word(bs[n]))
  }

  // When every block is recovered, no failure is counted, the reported total is exactly the number of outer bits
  // that changed, and each block changed by at most t.
  lemma {:induction false} AccountingExact(t: nat, outer: Bytes, sketch: seq<Bytes>, n: nat, total: int)
    requires n <= |sketch| && Covers(outer, n) && RecoverBlocks(t, outer, sketch, n).Some?
    ensures var bs := RecoverBlocks(t, outer, sketch, n).value;
            var st := StatsAfter(t, outer, sketch, n, total);
            && (forall b :: 0 <= b < |bs| ==> |bs[b]| == 32)
            && st.blocksFailed == 0 && st.errorsCorrectedTotal == TotalDistance(outer, bs)
            && 0 <= st.errorsPerBlockMax <= t
  {
    hide RecoverBlock, Block, Slice, Distance, XorBytes, IsCode, DecodesTo;
    if n > 0 {
      AccountingExact(t, outer, sketch, n - 1, total);
      var bs := RecoverBlocks(t, outer, sketch, n).value;
      assert bs[..n - 1] == RecoverBlocks(t, outer, sketch, n - 1).value;
      RecoveredIsNear(t, Block(outer, n - 1), sketch[n - 1]);
      BlockWord(outer, n - 1);
    }
  }

  // The blocks among the first n that no codeword lies near.
  ghost function Failures(t: nat, outer: Bytes, sketch: seq<Bytes>, n: nat): set<nat>
    requires n <= |sketch| && Covers(outer, n)
  {
    set b: nat | b < n && b * N + N <= 8 * |outer| && RecoverBlock(t, Block(outer, b), sketch[b]).None?
  }

  // Whether or not everything is recovered, the reported failures are exactly those blocks.
  lemma {:induction false} FailuresCounted(t: nat, outer: Bytes, sketch: seq<Bytes>, n: nat, total: int)
    requires n <= |sketch| && Covers(outer, n)
    ensures StatsAfter(t, outer, sketch, n, total).blocksFailed == |Failures(t, outer, sketch, n)|
    ensures StatsAfter(t, outer, sketch, n, total).blocksTotal == total
  {
    hide RecoverBlock, Block, Distance, Word;
    if n > 0 {
      FailuresCounted(t, outer, sketch, n - 1, total);
      var before := Failures(t, outer, sketch, n - 1);
      CoversBlock(outer, n, n - 1);
      if RecoverBlock(t, Block(outer, n - 1), sketch[n - 1]).None? {
        assert Failures(t, outer, sketch, n) == before + {n - 1};
      } else {
        assert Failures(t, outer, sketch, n) == before;
      }
    } else {
      assert Failures(t, outer, sketch, 0) == {};
    }
  }

  // ---------- key reproduction ----------

  // On helper data from gen, rep reproduces gen's key for every measurement whose blocks are all near enough, and
  // recovers the enrolled response exactly then.
  lemma KeyReproduction(x: Extractor, response: Bytes, seed: Bytes, noisy: Bytes)
    requires x.Valid() && |seed| == x.params.seedBytes
    requires |response| == |noisy| == BytesForBits(x.RequiredPufBits())
    ensures Covers(x.EnrolledOuter(response), x.params.numBlocks)
    ensures var measured := x.MeasuredOuter(noisy, x.PublishedOffsets(response));
            var n := x.params.numBlocks;
            var helper := GenHelper(x, response, seed);
            && Covers(measured, n)
            && WellShaped(x, noisy, helper)
            && (AllNear(x.codec.t, x.EnrolledOuter(response), measured, n) ==> RepKey(x, noisy, helper) == Some(GenKey(x, response, seed)))
            && (AllNear(x.codec.t, x.EnrolledOuter(response), measured, n) <==>
                RecoverBlocks(x.codec.t, measured, helper.sketch, n) == Some(Blocks(x.EnrolledOuter(response), n)))
  {
    hide GetBit, Pack, AllNear, RecoverBlocks, Sketches, Blocks, Concat, Extractor.MeasuredOuter, Extractor.EnrolledOuter, Codec.Valid;
    var offsets := x.PublishedOffsets(response);
    OuterCovers(x, response, offsets);
    OuterCovers(x, noisy, offsets);
    ResponseRecoveredIffNear(x, x.EnrolledOuter(response), x.MeasuredOuter(noisy, offsets), seed, x.params.numBlocks);
  }

  // ---------- the key depends on the response ----------

  // The enrolled outer bits as one string, block after block.
  ghost function EnrolledString(x: Extractor, response: Bytes): Bytes
    requires x.Valid() && |response| == BytesForBits(x.RequiredPufBits())
  {
    OuterCovers(x, response, []);
    Concat(Blocks(x.EnrolledOuter(response), x.params.numBlocks))
  }

  // Under this seed nothing collides with the string r: extraction maps no other string to the same result, and where
  // results are shorter than a key, the expansion that follows maps no other result to the same key.
  ghost predicate NoCollision(x: Extractor, seed: Bytes, r: Bytes) {
    var n, e := x.params.keyBits / 8, x.suite.extract(seed, r);
    && (forall a :: x.suite.extract(seed, a) == e ==> a == r)
    && (|| (forall a :: |x.suite.extract(seed, a)| == n)
        || ((forall a :: |x.suite.extract(seed, a)| < n) && n <= 0xFFFF
            && forall k :: x.suite.kdf(k, seed, LABEL_FE_ROOT, [], n) == x.suite.kdf(e, seed, LABEL_FE_ROOT, [], n) ==> k == e))
  }

  lemma KeySeparates(x: Extractor, seed: Bytes, a: Bytes, r: Bytes)
    requires x.suite.Valid() && NoCollision(x, seed, r) && x.KeyFrom(seed, a) == x.KeyFrom(seed, r)
    ensures a == r
  {
    var k, l := x.suite.extract(seed, a), x.suite.extract(seed, r);
    if |k| < x.params.keyBits / 8 {
      assert |l| < x.params.keyBits / 8;
    } else {
      assert x.KeyFrom(seed, a) == k && x.KeyFrom(seed, r) == l;
    }
  }

  lemma {:induction false} ConcatUnique(bs: seq<Bytes>, cs: seq<Bytes>)
    requires |bs| == |cs| && Concat(bs) == Concat(cs)
    requires forall b :: 0 <= b < |bs| ==> |bs[b]| == 32 == |cs[b]|
    ensures bs == cs
  {
    if |bs| > 0 {
      var n := |bs| - 1;
      var p, q := Concat(bs[..n]), Concat(cs[..n]);
      ConcatLength(bs[..n]);
      ConcatLength(cs[..n]);
      assert (p + bs[n])[..|p|] == p && (q + cs[n])[..|q|] == q;
      assert (p + bs[n])[|p|..] == bs[n] && (q + cs[n])[|q|..] == cs[n];
      ConcatUnique(bs[..n], cs[..n]);
      assert bs == bs[..n] + [bs[n]] && cs == cs[..n] + [cs[n]];
    }
  }

  lemma {:induction false} ConcatLength(bs: seq<Bytes>)
    requires forall b :: 0 <= b < |bs| ==> |bs[b]| == 32
    ensures |Concat(bs)| == 32 * |bs|
  {
    if |bs| > 0 { ConcatLength(bs[..|bs| - 1]); }
  }

  // Two enrolments under one seed have the same key if and only if their outer blocks are the same.
  lemma EnrolledKeysEqualIff(x: Extractor, response: Bytes, response': Bytes, seed: Bytes)
    requires x.Valid() && |response| == |response'| == BytesForBits(x.RequiredPufBits())
    requires NoCollision(x, seed, EnrolledString(x, response))
    ensures Covers(x.EnrolledOuter(response), x.params.numBlocks) && Covers(x.EnrolledOuter(response'), x.params.numBlocks)
    ensures GenKey(x, response, seed) == GenKey(x, response', seed) <==>
            Blocks(x.EnrolledOuter(response), x.params.numBlocks) == Blocks(x.EnrolledOuter(response'), x.params.numBlocks)
  {
    hide GetBit, Pack, Blocks, Concat, Extractor.EnrolledOuter, Codec.Valid, Extractor.KeyFrom, NoCollision, Suite.Valid;
    OuterCovers(x, response, []);
    OuterCovers(x, response', []);
    var n := x.params.numBlocks;
    var bs, cs := Blocks(x.EnrolledOuter(response), n), Blocks(x.EnrolledOuter(response'), n);
    if GenKey(x, response, seed) == GenKey(x, response', seed) {
      KeySeparates(x, seed, Concat(cs), Concat(bs));
      ConcatUnique(bs, cs);
    }
  }

  lemma {:induction false} RecoveredSizes(t: nat, outer: Bytes, sketch: seq<Bytes>, n: nat)
    requires n <= |sketch| && Covers(outer, n) && RecoverBlocks(t, outer, sketch, n).Some?
    ensures forall b :: 0 <= b < n ==> |RecoverBlocks(t, outer, sketch, n).value[b]| == 32
  {
    hide RecoverBlock, Block;
    if n > 0 {
      RecoveredSizes(t, outer, sketch, n - 1);
      RecoveredIsNear(t, Block(outer, n - 1), sketch[n - 1]);
    }
  }

  // On helper data from gen, rep returns gen's key if and only if every block of the measurement is near enough.
  lemma KeyReproducedIff(x: Extractor, response: Bytes, seed: Bytes, noisy: Bytes)
    requires x.Valid() && |seed| == x.params.seedBytes && |response| == |noisy| == BytesForBits(x.RequiredPufBits())
    requires NoCollision(x, seed, EnrolledString(x, response))
    ensures Covers(x.EnrolledOuter(response), x.params.numBlocks)
    ensures var measured := x.MeasuredOuter(noisy, x.PublishedOffsets(response));
            && Covers(measured, x.params.numBlocks)
            && (RepKey(x, noisy, GenHelper(x, response, seed)) == Some(GenKey(x, response, seed)) <==>
                AllNear(x.codec.t, x.EnrolledOuter(response), measured, x.params.numBlocks))
  {
    hide GetBit, Pack, AllNear, RecoverBlocks, Sketches, Blocks, Concat, Extractor.MeasuredOuter, Extractor.EnrolledOuter,
      Codec.Valid, Extractor.KeyFrom, NoCollision, Suite.Valid, WellShaped, Extractor.PublishedOffsets;
    KeyReproduction(x, response, seed, noisy);
    var n := x.params.numBlocks;
    var measured := x.MeasuredOuter(noisy, x.PublishedOffsets(response));
    var helper := GenHelper(x, response, seed);
    var r := RecoverBlocks(x.codec.t, measured, helper.sketch, n);
    if RepKey(x, noisy, helper) == Some(GenKey(x, response, seed)) {
      KeySeparates(x, seed, Concat(r.value), Concat(Blocks(x.EnrolledOuter(response), n)));
      RecoveredSizes(x.codec.t, measured, helper.sketch, n);
      ConcatUnique(r.value, Blocks(x.EnrolledOuter(response), n));
    }
  }

  // ---------- the codewords ----------

  // A block's codeword begins with the bits derived for that block.
  lemma CodewordMessage(x: Extractor, seed: Bytes, b: nat)
    requires x.Valid()
    ensures |CodewordSeed(x.suite, seed, b, BytesForBits(x.codec.k))| == BytesForBits(x.codec.k)
    ensures BitSeq(x.BlockCodeword(seed, b), x.codec.k) ==
            BitSeq(CodewordSeed(x.suite, seed, b, BytesForBits(x.codec.k)), x.codec.k)
  {
    hide GetBit, Pack, IsCode, Codec.Valid, Encode, Word, Closure;
    x.codec.Shape();
    SmallMessage(x.codec);
    var k := x.codec.k;
    var msg := BitSeq(CodewordSeed(x.suite, seed, b, BytesForBits(k)), k);
    EncodedLength(x.codec, msg);
    var w := Encode(x.codec.G(), msg);
    PackBitSeq(w);
    PrefixOfBits(x.BlockCodeword(seed, b), k, N);
  }

  lemma EncodedLength(c: Codec, msg: seq<bool>)
    requires c.Valid() && |msg| == c.k
    ensures |c.G()| >= 2 && |Encode(c.G(), msg)| == N && Encode(c.G(), msg)[..c.k] == msg
  {
    c.Shape();
  }

  lemma PrefixOfBits(b: Bytes, k: nat, n: nat)
    requires k <= n <= 8 * |b|
    ensures BitSeq(b, k) == BitSeq(b, n)[..k]
  {
    hide GetBit;
  }

  // No two requests to the KDF give this result.
  ghost predicate OneRequest(suite: Suite, out: Bytes) {
    forall i, s, p, o, n: nat, i', s', p', o', n': nat ::
      suite.kdf(i, s, p, o, n) == out && suite.kdf(i', s', p', o', n') == out ==>
        i == i' && s == s' && p == p' && o == o' && n == n'
  }

  lemma SameRequest(suite: Suite, i: Bytes, s: Bytes, p: string, o: Bytes, n: nat,
                    i': Bytes, s': Bytes, p': string, o': Bytes, n': nat)
    requires OneRequest(suite, suite.kdf(i, s, p, o, n)) && suite.kdf(i, s, p, o, n) == suite.kdf(i', s', p', o', n')
    ensures i == i' && s == s' && p == p' && o == o' && n == n'
  {}

  // Short of a collision of the KDF the bits derived for a block are derived for no other block, under no other seed,
  // and never as a key.
  lemma CodewordsSeparate(suite: Suite, seed: Bytes, b: nat, seed': Bytes, b': nat, n: nat, key: Bytes, m: nat)
    requires OneRequest(suite, CodewordSeed(suite, seed, b, n)) && b < 65536 && b' < 65536
    ensures CodewordSeed(suite, seed, b, n) == CodewordSeed(suite, seed', b', n) <==> seed == seed' && b == b'
    ensures CodewordSeed(suite, seed, b, n) != suite.kdf(key, seed', LABEL_FE_ROOT, [], m)
  {
    hide U16be, OneRequest;
    if CodewordSeed(suite, seed, b, n) == CodewordSeed(suite, seed', b', n) {
      SameRequest(suite, seed, [], LABEL_FE_CODEWORD, U16be(b), n, seed', [], LABEL_FE_CODEWORD, U16be(b'), n);
      ReadWritten([], b, []);
      ReadWritten([], b', []);
      assert [] + U16be(b) + [] == U16be(b) && [] + U16be(b') + [] == U16be(b');
    }
    if CodewordSeed(suite, seed, b, n) == suite.kdf(key, seed', LABEL_FE_ROOT, [], m) {
      SameRequest(suite, seed, [], LABEL_FE_CODEWORD, U16be(b), n, key, seed', LABEL_FE_ROOT, [], m);
    }
  }

  // ---------- the inner code ----------

  // Outer bits base .. base + n whose copies mostly flipped.
  function MajorityFlipped(response: Bytes, noisy: Bytes, rep: nat, base: nat, n: nat): (s: seq<bool>)
    ensures |s| == n && forall i :: 0 <= i < n ==> s[i] == (2 * Flips(response, noisy, rep, base + i, rep) > rep)
  {
    seq(n, i requires 0 <= i => 2 * Flips(response, noisy, rep, base + i, rep) > rep)
  }

  // With the inner code, a block is as far away as it has outer bits with a flipped majority: with three copies,
  // triples with two or three flips.
  lemma InnerCodeDistance(x: Extractor, response: Bytes, noisy: Bytes, b: nat)
    requires x.Valid() && x.params.repFactor == 3 && b < x.params.numBlocks
    requires |response| == |noisy| == BytesForBits(x.RequiredPufBits())
    ensures var enrolled := x.EnrolledOuter(response);
            var measured := x.MeasuredOuter(noisy, x.PublishedOffsets(response));
            && b * N + N <= 8 * |enrolled| && b * N + N <= 8 * |measured|
            && Distance(Slice(measured, b * N, N), Slice(enrolled, b * N, N)) ==
               Weight(MajorityFlipped(response, noisy, 3, b * N, N))
  {
    hide GetBit, Flips, Votes, References, Offsets, Weight, Codec.Valid, Extractor.PublishedOffsets, Extractor.MeasuredOuter,
      Extractor.EnrolledOuter, Pack;
    var offsets := x.PublishedOffsets(response);
    OuterCovers(x, response, offsets);
    OuterCovers(x, noisy, offsets);
    var enrolled, measured := x.EnrolledOuter(response), x.MeasuredOuter(noisy, offsets);
    CoversBlock(enrolled, x.params.numBlocks, b);
    CoversBlock(measured, x.params.numBlocks, b);
    var d := XorBits(Slice(measured, b * N, N), Slice(enrolled, b * N, N));
    var m := MajorityFlipped(response, noisy, 3, b * N, N);
    forall i | 0 <= i < N ensures d[i] == m[i] { OuterBitFlipped(x, response, noisy, b * N + i); }
    assert d == m;
  }

  // An outer bit of the measurement is wrong exactly when most of its copies flipped.
  lemma OuterBitFlipped(x: Extractor, response: Bytes, noisy: Bytes, i: nat)
    requires x.Valid() && x.params.repFactor == 3 && i < x.OuterBits()
    requires |response| == |noisy| == BytesForBits(x.RequiredPufBits())
    ensures var enrolled := x.EnrolledOuter(response);
            var measured := x.MeasuredOuter(noisy, x.PublishedOffsets(response));
            && i < 8 * |enrolled| && i < 8 * |measured|
            && (GetBit(measured, i) != GetBit(enrolled, i)) == (2 * Flips(response, noisy, 3, i, 3) > 3)
  {
    hide GetBit, Flips, Votes, References, Offsets, Codec.Valid;
    VoteWrongIffMajorityFlipped(response, noisy, x.OuterBits(), 3, i);
  }

  // ---------- the extractor's operations ----------

  // The entropy left after publishing the sketches covers the key and the extractor's loss.
  ghost predicate BudgetMet(params: Params)
    requires params.bchT >= 0
  {
    params.numBlocks as real * (params.assumedMinEntropyRate * N as real - |Closure(params.bchT)| as real)
      >= params.keyBits as real + 2.0 * params.epsLog2 as real
  }

  // Built exactly from the parameters the code can serve.
  method Construct(params: Params, suite: Suite) returns (r: FeResult<Extractor>)
    requires suite.Valid()
    ensures r.FeOk? ==> r.value.Valid() && r.value.params == params && r.value.suite == suite
    ensures r.FeOk? <==>
              && (params.repFactor == 1 || params.repFactor == 3) && params.numBlocks >= 1 && params.seedBytes >= 16
              && 1 <= params.bchT <= 30 && params.blockBits == N && (params.checkBudget ==> BudgetMet(params))
  {
    hide IsGenerator, ExpTable, LogTable, Closure;
    if params.repFactor != 1 && params.repFactor != 3 { return FeErr(BadRepFactor); }
    if params.numBlocks < 1 { return FeErr(BadNumBlocks); }
    if params.seedBytes < 16 { return FeErr(SeedTooShort); }
    var codec := BchCodec.Construct(params.bchT);
    if codec.Err? { return FeErr(BadCodec); }
    if N != params.blockBits { return FeErr(BadBlockLength); }
    var perBlock := params.assumedMinEntropyRate * params.blockBits as real - codec.value.parityBits as real;
    var residual := params.numBlocks as real * perBlock;
    var needed := params.keyBits as real + 2.0 * params.epsLog2 as real;
    if params.checkBudget && residual < needed { return FeErr(BudgetNotMet); }
    r := FeOk(Extractor(params, suite, codec.value));
  }

  // Clears every bit from k on.
  method ClearPadding(bits: Bytes, k: nat) returns (data: Bytes)
    ensures |data| == |bits|
    ensures forall i :: 0 <= i < 8 * |data| ==> GetBit(data, i) == (i < k && GetBit(bits, i))
  {
    hide GetBit;
    data := bits;
    if k >= 8 * |data| { return; }
    for i := k to 8 * |data|
      invariant |data| == |bits|
      invariant forall j :: 0 <= j < 8 * |data| ==> GetBit(data, j) == ((j < k || j >= i) && GetBit(bits, j))
    {
      data := SetBit(data, i, false);
    }
  }

  method Gen(x: Extractor, response: Bytes, seed: Bytes) returns (r: FeResult<GenResult>)
    requires x.Valid()
    ensures r.FeOk? <==> |seed| == x.params.seedBytes && |response| == BytesForBits(x.RequiredPufBits())
    ensures r.FeOk? ==> r.value.ok && Covers(x.EnrolledOuter(response), x.params.numBlocks)
                        && r.value.helper == GenHelper(x, response, seed)
                        && r.value.mk == GenKey(x, response, seed) && |r.value.mk| == x.params.keyBits / 8
                        && r.value.stats == Stats(x.params.numBlocks, 0, 0, 0)
  {
    hide GetBit, Pack, Covers, IsCode, Extractor.Valid, Sketches, Blocks, Concat, References, Offsets;
    Parts(x);
    if |seed| != x.params.seedBytes { return FeErr(WrongSeedLength); }
    if |response| != BytesForBits(x.RequiredPufBits()) { return FeErr(WrongResponseLength); }
    var outer := response;
    var repOffsets := [];
    var outerBitsTotal := x.params.numBlocks * x.params.blockBits;
    if x.params.repFactor > 1 {
      repOffsets := RepetitionEncodeOffsets(response, outerBitsTotal, x.params.repFactor);
      outer := RepetitionReference(response, outerBitsTotal, x.params.repFactor);
    }
    OuterCovers(x, response, repOffsets);
    var sketch, recovered := SketchBlocks(x, outer, seed);
    var key := DeriveKey(x, seed, recovered);
    r := FeOk(GenResult(HelperData(sketch, repOffsets, seed, x.params), key, true, Stats(x.params.numBlocks, 0, 0, 0)));
  }

  // One pass over the blocks: the sketch of each, and the enrolled response itself.
  method SketchBlocks(x: Extractor, outer: Bytes, seed: Bytes) returns (sketch: seq<Bytes>, recovered: Bytes)
    requires x.Valid() && Covers(outer, x.params.numBlocks)
    ensures sketch == Sketches(x, outer, seed, x.params.numBlocks)
    ensures recovered == Concat(Blocks(outer, x.params.numBlocks))
  {
    hide GetBit, Pack, XorBytes, IsCode, Extractor.Valid, Extractor.BlockCodeword;
    Parts(x);
    sketch := [];
    recovered := [];
    for b := 0 to x.params.numBlocks
      invariant Covers(outer, b)
      invariant sketch == Sketches(x, outer, seed, b)
      invariant recovered == Concat(Blocks(outer, b))
    {
      CoversBlock(outer, x.params.numBlocks, b);
      var block := OuterBlock(outer, b);
      var codeword := DeriveCodeword(x, seed, b);
      sketch := sketch + [XorBytes(block, codeword)];
      assert Blocks(outer, b + 1)[..b] == Blocks(outer, b);
      recovered := recovered + block;
    }
  }

  lemma Parts(x: Extractor)
    requires x.Valid()
    ensures x.params.numBlocks >= 1 && (x.params.repFactor == 1 || x.params.repFactor == 3)
    ensures x.params.blockBits == N && x.codec.Valid() && x.suite.Valid()
  {}

  method DeriveCodeword(x: Extractor, seed: Bytes, b: nat) returns (codeword: Bytes)
    requires x.Valid()
    ensures codeword == x.BlockCodeword(seed, b)
  {
    hide GetBit, Pack, IsCode, Codec.Valid, Encode, Word;
    x.codec.Shape();
    SmallMessage(x.codec);
    var rBits := x.suite.kdf(seed, [], LABEL_FE_CODEWORD, U16be(b), BytesForBits(x.codec.k));
    var data := ClearPadding(rBits, x.codec.k);
    assert BitSeq(data, x.codec.k) == BitSeq(rBits, x.codec.k);
    var c := x.codec.EncodeCodeword(data);
    codeword := c.value;
  }

  lemma SmallMessage(c: Codec)
    requires c.Valid()
    ensures BytesForBits(c.k) <= 0xFFFF
  {}

  method DeriveKey(x: Extractor, seed: Bytes, recovered: Bytes) returns (key: Bytes)
    ensures key == x.KeyFrom(seed, recovered)
  {
    key := x.suite.extract(seed, recovered);
    var keyBytes := x.params.keyBits / 8;
    if |key| < keyBytes { key := x.suite.kdf(key, seed, LABEL_FE_ROOT, [], keyBytes); }
    key := Resize(key, keyBytes);
  }

  method Rep(x: Extractor, noisy: Bytes, helper: HelperData) returns (r: RepResult)
    requires x.Valid()
    ensures r.ok <==> RepKey(x, noisy, helper).Some?
    ensures r.ok ==> r.mk == RepKey(x, noisy, helper).value
    ensures !r.ok ==> r.mk == []
    ensures var outer, n := x.MeasuredOuter(noisy, helper.repOffsets), x.params.numBlocks;
            if WellShaped(x, noisy, helper) then
              Covers(outer, n) && r.stats == StatsAfter(x.codec.t, outer, helper.sketch, FirstMisfit(helper.sketch), n)
            else r.stats == Stats(n, 0, 0, 0)
  {
    hide GetBit, Pack, Covers, Votes, RecoverBlocks, StatsAfter, Concat, Extractor.Valid, FirstMisfit;
    Parts(x);
    r := RepResult([], false, Stats(x.params.numBlocks, 0, 0, 0));
    if |noisy| != BytesForBits(x.RequiredPufBits()) || |helper.sketch| != x.params.numBlocks || |helper.seed| != x.params.seedBytes {
      return;
    }
    var outerBitsTotal := x.params.numBlocks * x.params.blockBits;
    var outer := noisy;
    if x.params.repFactor > 1 {
      var expected := BytesForBits(outerBitsTotal * (x.params.repFactor - 1));
      if |helper.repOffsets| != expected { return; }
      outer := RepetitionDecodeWithOffsets(noisy, helper.repOffsets, outerBitsTotal, x.params.repFactor);
    }
    OuterCovers(x, noisy, helper.repOffsets);
    var allOk, recovered, stats := DecodeBlocks(x, outer, helper.sketch);
    if !allOk { return RepResult([], false, stats); }
    var key := DeriveKey(x, helper.seed, recovered);
    r := RepResult(key, true, stats);
  }

  method OuterBlock(outer: Bytes, b: nat) returns (block: Bytes)
    requires b * N + N <= 8 * |outer|
    ensures block == Block(outer, b)
  {
    hide Pack, Slice;
    block := ExtractBlock(outer, b, N);
  }

  // The decoding loop: it stops at a sketch of the wrong size and keeps counting past an undecodable block.
  method DecodeBlocks(x: Extractor, outer: Bytes, sketches: seq<Bytes>) returns (allOk: bool, recovered: Bytes, stats: Stats)
    requires x.Valid() && Covers(outer, x.params.numBlocks) && |sketches| == x.params.numBlocks
    ensures var all := RecoverBlocks(x.codec.t, outer, sketches, x.params.numBlocks);
            allOk == all.Some? && (allOk ==> recovered == Concat(all.value))
    ensures stats == StatsAfter(x.codec.t, outer, sketches, FirstMisfit(sketches), x.params.numBlocks)
  {
    hide GetBit, Pack, XorBytes, IsCode, DecodesTo, Extractor.Valid, Codec.Valid, Distance, Word, Covers, Progress,
         RecoverBlocks, StatsAfter, Concat, Block, FirstMisfit;
    Parts(x);
    ghost var t := x.codec.t;
    var n := x.params.numBlocks;
    stats := Stats(n, 0, 0, 0);
    recovered := [];
    allOk := true;
    ProgressStart(t, outer, sketches, n);
    for b := 0 to n
      invariant Progress(t, outer, sketches, n, b, allOk, recovered, stats)
    {
      CoversBlock(outer, n, b);
      var block := OuterBlock(outer, b);
      var sketch := sketches[b];
      if |sketch| != |block| {
        ProgressMismatch(t, outer, sketches, n, b, allOk, recovered, stats);
        return false, recovered, stats;
      }
      var noisyCodeword := XorBytes(block, sketch);
      var ok, corrected, errors := DecodeCodeword(x.codec, noisyCodeword, []);
      if !ok {
        ProgressFailed(t, outer, sketches, n, b, allOk, recovered, stats);
        stats := stats.(blocksFailed := stats.blocksFailed + 1);
        allOk := false;
        continue;
      }
      ProgressDecoded(t, outer, sketches, n, b, allOk, recovered, stats, corrected, errors);
      stats := stats.(errorsCorrectedTotal := stats.errorsCorrectedTotal + errors);
      if errors > stats.errorsPerBlockMax { stats := stats.(errorsPerBlockMax := errors); }
      recovered := recovered + XorBytes(sketch, corrected);
    }
    ProgressDone(t, outer, sketches, n, allOk, recovered, stats);
  }

  // The decoding loop's state after b blocks.
  ghost predicate Progress(t: nat, outer: Bytes, sketches: seq<Bytes>, n: nat, b: nat, allOk: bool, recovered: Bytes, stats: Stats) {
    && Covers(outer, n) && b <= FirstMisfit(sketches) <= n == |sketches|
    && (allOk <==> Recovered(t, outer, sketches, n, b).Some?)
    && (allOk ==> recovered == Concat(Recovered(t, outer, sketches, n, b).value))
    && stats == Accounted(t, outer, sketches, n, b)
  }

  lemma ProgressStart(t: nat, outer: Bytes, sketches: seq<Bytes>, n: nat)
    requires Covers(outer, n) && n == |sketches|
    ensures Progress(t, outer, sketches, n, 0, true, [], Stats(n, 0, 0, 0))
  {}

  lemma ProgressDone(t: nat, outer: Bytes, sketches: seq<Bytes>, n: nat, allOk: bool, recovered: Bytes, stats: Stats)
    requires Progress(t, outer, sketches, n, n, allOk, recovered, stats)
    ensures Covers(outer, n)
    ensures var all := RecoverBlocks(t, outer, sketches, n); allOk == all.Some? && (allOk ==> recovered == Concat(all.value))
    ensures FirstMisfit(sketches) == n && stats == StatsAfter(t, outer, sketches, n, n)
  {
    hide RecoverBlocks, StatsAfter, Concat, FirstMisfit;
  }

  lemma ProgressMismatch(t: nat, outer: Bytes, sketches: seq<Bytes>, n: nat, b: nat, allOk: bool, recovered: Bytes, stats: Stats)
    requires Progress(t, outer, sketches, n, b, allOk, recovered, stats) && b < n && |sketches[b]| != 32
    ensures Covers(outer, n) && RecoverBlocks(t, outer, sketches, n) == None
    ensures FirstMisfit(sketches) == b && stats == StatsAfter(t, outer, sketches, b, n)
  {
    hide RecoverBlock, Block, Concat, StatsAfter, FirstMisfit;
    CoversBlock(outer, n, b);
    NoRecovery(t, Block(outer, b), sketches[b]);
    NoneStays(t, outer, sketches, b + 1, n);
  }

  lemma ProgressFailed(t: nat, outer: Bytes, sketches: seq<Bytes>, n: nat, b: nat, allOk: bool, recovered: Bytes, stats: Stats)
    requires Progress(t, outer, sketches, n, b, allOk, recovered, stats) && b < n && |sketches[b]| == 32
    requires b * N + N <= 8 * |outer| && forall c :: !DecodesTo(t, XorBytes(Block(outer, b), sketches[b]), c)
    ensures Progress(t, outer, sketches, n, b + 1, false, recovered, stats.(blocksFailed := stats.blocksFailed + 1))
  {
    hide RecoverBlock, Block, Concat, FirstMisfit, StatsAfter, RecoverBlocks, XorBytes, DecodesTo;
    NoRecovery(t, Block(outer, b), sketches[b]);
    OneMoreBlock(t, outer, sketches, n, b);
  }

  lemma ProgressDecoded(t: nat, outer: Bytes, sketches: seq<Bytes>, n: nat, b: nat, allOk: bool, recovered: Bytes, stats: Stats,
                        c: Bytes, errors: int)
    requires Progress(t, outer, sketches, n, b, allOk, recovered, stats) && b < n && |sketches[b]| == 32
    requires b * N + N <= 8 * |outer|
    requires var noisy := XorBytes(Block(outer, b), sketches[b]);
             DecodesTo(t, noisy, c) && |c| == 32 && errors == Distance(Word(noisy), Word(c))
    ensures Progress(t, outer, sketches, n, b + 1, allOk, recovered + XorBytes(sketches[b], c),
                     stats.(errorsCorrectedTotal := stats.errorsCorrectedTotal + errors,
                            errorsPerBlockMax := if errors > stats.errorsPerBlockMax then errors else stats.errorsPerBlockMax))
  {
    hide RecoverBlock, Block, Concat, FirstMisfit, StatsAfter, RecoverBlocks, XorBytes, DecodesTo, Distance, Word;
    Recovery(t, Block(outer, b), sketches[b], c);
    OneMoreBlock(t, outer, sketches, n, b);
    ConcatSnoc(recovered, Recovered(t, outer, sketches, n, b), XorBytes(sketches[b], c));
  }

  // The first b blocks of a response that covers n.
  ghost function Recovered(t: nat, outer: Bytes, sketches: seq<Bytes>, n: nat, b: nat): (r: Option<seq<Bytes>>)
    requires Covers(outer, n) && b <= n <= |sketches|
  {
    RecoverBlocks(t, outer, sketches, b)
  }

  ghost function Accounted(t: nat, outer: Bytes, sketches: seq<Bytes>, n: nat, b: nat): Stats
    requires Covers(outer, n) && b <= n <= |sketches|
  {
    StatsAfter(t, outer, sketches, b, n)
  }

  lemma ConcatSnoc(recovered: Bytes, before: Option<seq<Bytes>>, last: Bytes)
    ensures before.Some? ==> Concat(before.value + [last]) == Concat(before.value) + last
  {
    if before.Some? { assert (before.value + [last])[..|before.value|] == before.value; }
  }

  lemma OneMoreBlock(t: nat, outer: Bytes, sketches: seq<Bytes>, n: nat, b: nat)
    requires Covers(outer, n) && b < n <= |sketches|
    ensures b * N + N <= 8 * |outer|
    ensures var before, last := Recovered(t, outer, sketches, n, b), RecoverBlock(t, Block(outer, b), sketches[b]);
            Recovered(t, outer, sketches, n, b + 1) ==
            if before.Some? && last.Some? then Some(before.value + [last.value]) else None
    ensures var st, block := Accounted(t, outer, sketches, n, b), Block(outer, b);
            var r := RecoverBlock(t, block, sketches[b]);
            && (r.None? ==> Accounted(t, outer, sketches, n, b + 1) == st.(blocksFailed := st.blocksFailed + 1))
            && (r.Some? ==>
                  (|r.value| == 32 &&
                   (var errors := Distance(Word(block), Word(r.value));
                    Accounted(t, outer, sketches, n, b + 1) ==
                      st.(errorsCorrectedTotal := st.errorsCorrectedTotal + errors,
                          errorsPerBlockMax := if errors > st.errorsPerBlockMax then errors else st.errorsPerBlockMax))))
  {
    hide RecoverBlock, Block, Distance, Word, XorBytes, IsCode, DecodesTo;
    CoversBlock(outer, n, b);
    if RecoverBlock(t, Block(outer, b), sketches[b]).Some? { RecoveredIsNear(t, Block(outer, b), sketches[b]); }
  }

  lemma NoRecovery(t: nat, block: Bytes, sketch: Bytes)
    requires |block| == 32
    requires |sketch| != 32 || forall c :: !DecodesTo(t, XorBytes(block, sketch), c)
    ensures RecoverBlock(t, block, sketch) == None
  {}

  lemma Recovery(t: nat, block: Bytes, sketch: Bytes, c: Bytes)
    requires |block| == |sketch| == 32 && DecodesTo(t, XorBytes(block, sketch), c)
    ensures |c| == 32 && RecoverBlock(t, block, sketch) == Some(XorBytes(sketch, c))
    ensures Distance(Word(XorBytes(block, sketch)), Word(c)) == Distance(Word(block), Word(XorBytes(sketch, c)))
  {
    hide XorBytes, IsCode, Distance, GetBit;
    RecoverFrom(t, block, sketch, c);
    XorTwice(sketch, c); XorTwice(c, sketch); XorTwice(XorBytes(sketch, c), sketch);
    RecoveredIsNear(t, block, sketch);
  }

  lemma {:induction false} NoneStays(t: nat, outer: Bytes, sketch: seq<Bytes>, n: nat, m: nat)
    requires n <= m <= |sketch| && Covers(outer, m) && RecoverBlocks(t, outer, sketch, n) == None
    ensures RecoverBlocks(t, outer, sketch, m) == None
  {
    hide RecoverBlock, Block;
    if n < m { NoneStays(t, outer, sketch, n, m - 1); }
  }
}
