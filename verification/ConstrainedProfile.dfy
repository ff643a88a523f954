// The constrained-hardware suite as the fuzzy extractor uses it.
module ConstrainedProfile {
  import opened Wrappers
  import opened Bits
  import opened Encoding
  import opened BchCode
  import opened Sponge
  import opened SpongentSuite
  import FE = FuzzyExtractor

  const KEY_LEN: nat := 32
  const LABEL_FE_EXTRACT := "uavauth/v1/fe-extract"

  function LabelBytes(s: string): Bytes {
    seq(|s|, i requires 0 <= i < |s| => ByteOf(s[i] as int % 256))
  }

  // Lengths beyond 65535 are refused by the code; no caller in the extractor asks for them.
  function Kdf(d: Domains, ikm: Bytes, salt: Bytes, purpose: string, info: Bytes, n: nat): Bytes {
    if n > MAX_OUT then [] else AbsorbSqueeze(Absorbed(d, KdfRequest(ikm, salt, LabelBytes(purpose), info, n)), n)
  }

  function Extract(d: Domains, salt: Bytes, source: Bytes): Bytes { Kdf(d, source, salt, LABEL_FE_EXTRACT, [], KEY_LEN) }

  function ProfileSuite(d: Domains): FE.Suite {
    FE.Suite((salt, source) => Extract(d, salt, source),
             (ikm, salt, purpose, info, n: nat) => Kdf(d, ikm, salt, purpose, info, n))
  }

  // What the fuzzy extractor assumes of its suite holds of this one, so its theorems apply to it.
  lemma ProfileSuiteValid(d: Domains)
    ensures ProfileSuite(d).Valid()
  {
    hide Absorbed, LabelBytes;
  }

  // An extractor built over this suite reproduces the enrolled key from every measurement near enough.
  lemma ProfileReproduction(d: Domains, x: FE.Extractor, response: Bytes, seed: Bytes, noisy: Bytes)
    requires x.suite == ProfileSuite(d) && x.codec.Valid() && x.codec.t == x.params.bchT
    requires (x.params.repFactor == 1 || x.params.repFactor == 3) && x.params.numBlocks >= 1 && x.params.seedBytes >= 16
    requires x.params.blockBits == N && |seed| == x.params.seedBytes
    requires |response| == |noisy| == BytesForBits(x.RequiredPufBits())
    ensures x.Valid() && FE.Covers(x.EnrolledOuter(response), x.params.numBlocks)
    ensures var measured := x.MeasuredOuter(noisy, x.PublishedOffsets(response));
            && FE.Covers(measured, x.params.numBlocks)
            && (FE.AllNear(x.codec.t, x.EnrolledOuter(response), measured, x.params.numBlocks) ==>
                  FE.RepKey(x, noisy, FE.GenHelper(x, response, seed)) == Some(FE.GenKey(x, response, seed)))
  {
    hide ProfileSuite, FE.AllNear, FE.RepKey, FE.GenHelper, FE.GenKey, FE.Extractor.MeasuredOuter, FE.Extractor.EnrolledOuter;
    ProfileSuiteValid(d);
    FE.KeyReproduction(x, response, seed, noisy);
  }

  // What extraction asks of the sponge.
  function ExtractRequest(salt: Bytes, source: Bytes): Request {
    KdfRequest(source, salt, LabelBytes(LABEL_FE_EXTRACT), [], KEY_LEN)
  }

  // Extraction squeezes 32 bytes out of that request. It feeds the permutation other blocks for any other source or
  // salt, and other blocks than any key derivation under another label or for another length.
  lemma ExtractSeparate(d: Domains, salt: Bytes, source: Bytes, r: Request)
    requires d.Valid() && |salt| < 65536 && |source| < 65536 && InRange(r) && r != ExtractRequest(salt, source)
    ensures Extract(d, salt, source) == AbsorbSqueeze(Absorbed(d, ExtractRequest(salt, source)), 32)
    ensures Padded(Absorbed(d, r)) != Padded(Absorbed(d, ExtractRequest(salt, source)))
  {
    hide Absorbed, Padded;
    if Padded(Absorbed(d, r)) == Padded(Absorbed(d, ExtractRequest(salt, source))) {
      RequestsDisjoint(d, r, ExtractRequest(salt, source));
    }
  }

  // Derivation of a key squeezes as many bytes as were asked for out of the request that names them.
  lemma KdfSqueezes(d: Domains, ikm: Bytes, salt: Bytes, purpose: string, info: Bytes, n: nat)
    requires n <= 65535
    ensures ProfileSuite(d).kdf(ikm, salt, purpose, info, n) ==
            AbsorbSqueeze(Absorbed(d, KdfRequest(ikm, salt, LabelBytes(purpose), info, n)), n)
    ensures ProfileSuite(d).extract(salt, ikm) == Extract(d, salt, ikm)
  {
    hide Absorbed, AbsorbSqueeze;
  }
}
