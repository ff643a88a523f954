# UAV authentication: verified model

The repository authenticates UAVs whose only secret is the response of a physical unclonable function. This project
models its five hardest components in Dafny and proves what each of them is for.

1. **BCH codec over GF(2^8).** `Gf256`, `GfLog`, `Poly`, `Recurrence` and `BerlekampMassey` hold the algebra;
   `BchCode`, `BchGenerator`, `BchEncoding` and `BchDistance` the code; `BchCodec` and `BchDecoder` the loops of the
   C++ class. Decoding is exactly bounded-distance decoding: it succeeds if and only if some codeword lies within
   distance t, and returns that codeword with the number of bits changed.
2. **Code-offset fuzzy extractor.** `InnerCode` and `FuzzyExtractor`. Helper data made at enrolment recovers the
   enrolled response if and only if every block is within t of it; short of a collision of the suite the key is the
   enrolled key exactly then, and different responses have different keys.
3. **Handshakes.** `ReplayCache`, `Credentials` and `OrderedKeys` are concrete. `Symbols`, `GroundStation` and
   `UavProtocol` are the handlers of Phases 2 and 3 as classes, each method proved against a step function, and
   `Refusals` says exactly which messages each refuses, for which reason, and what they leave behind. `Network`,
   `Invariants`, `Preservation` and `Runs` are runs of many parties over a hostile network. `Agreement` (Phase 2 and
   identities), `Packages` (M4 as bytes), `PeerAgreement` (Phase 3), `Authenticity` (every message), `CarefulRuns`,
   `FreshRuns`, `SingleUse` and `Blocking` are the theorems about those runs; `HonestRun`, `Stranding` and `PeerRuns`
   exhibit runs.
4. **Ascon-128a.** `AsconPermutation`, `AsconWords` and `AsconAead`, following Ascon v1.2, sections 2.4 and 2.6, and
   `AsconVectors`, which computes three of the designers' known answers.
5. **SPONGENT-160/160/16.** `Spongent160`, `Sponge`, `SpongentSuite` and `ConstrainedProfile`, following section 2 of
   the CHES 2011 paper, and `SpongentVectors`, which computes the ninety rounds on one state.

`KnownAnswers` holds small worked examples that fix byte orders, field orders and constants.

## How to read the model

- Bytes are `bv8`, byte strings `seq<bv8>`. `Bits` numbers bits from the most significant one of each byte;
  `Spongent160` numbers them from the least significant one, as the permutation's source does.
- Field elements, Ascon words and protocol values are wrapped in datatypes, and proofs hide definitions they do not
  use, so that no proof mixes bit-vector reasoning with anything else.
- C++ exceptions and error returns are `Result`, `FeResult`, `Option` or boolean results. Random draws and the key
  regenerated from the response are parameters.
- In the protocol modules cryptography is ideal. KDF outputs, MAC tags and sealed packages are terms, so different
  inputs give different values; `macInput` is one injective constructor per message type; X25519 shared secrets are
  unordered pairs of scalars, and derivation yields nothing once the secret is erased. Any four bytes are a `Stamp`, any
  two an `Id`; other strings the network makes up are `Opaque` or `LowOrder`. The network may deliver any
  message, with any sender, except that a tag or a package must occur in some earlier message; tags under the key of
  an empty credential, which anyone can compute, it may forge. No freshness of nonces or scalars is assumed
  outside `FreshRuns`, and any party may start any phase at any time. Enrolment precedes the run, and legacy mode is off.
- A UAV's regenerated key is its enrolled key, a wrong key, or none.
- `PeerRuns.AgreeingRunExists` exhibits, for every pair of UAVs, a run from enrolment in which both phases complete at
  every handler, so the theorems about runs are not empty.

## What the proofs say about the code

- `src/protocol/Protocol.h:73` says a pending identity is committed on the next M1. The code never commits it: the
  ground station keeps the enrolment identity and the last pending one. `RecognisedIff` gives the exact condition under
  which a UAV is recognised, and `StrandedRunExists` shows that in every deployment losing one M4 after a first
  rotation strands a UAV, which the comment at `src/protocol/Protocol.cc:177-178` means to rule out. What does hold, given
  fresh nonces, is that an accepted package is the newest one, so that a UAV that accepts every package sealed for it
  after its first rotation before its next session is recognised at the start of every session (`RecognisedAtStarts`).
- `startPhase2` drops every peer credential but keeps open peer exchanges. Completing one afterwards subscripts the
  missing entry, derives from an empty credential and stores it. `Phase3AgreementIff` and `InitiatorAgreementIff` say,
  over all runs, exactly when the two keys of an authenticated exchange agree; `DivergingRunExists` shows for every pair
  of UAVs a run that ends in two different keys, after which the stored empty credential opens further exchanges. In
  runs without a restart during an open exchange (`Careful`) agreement is unconditional.
- Every nonce is offered to the replay cache before its tag is checked. A genuine M1, M2 or P1 is therefore answered
  after rejected ones if and only if its nonce is not among the recent ones, and `Blocking` shows runs in which a forged
  copy makes it fail as replayed.
- The redundancy of the code is taken from the computed root set. The comment at `src/fe/BchCodec.h:26-27` gives 171
  parity bits for t = 25, the profile at `src/fe/FuzzyExtractor.cc:26-30` needs 164.

## Model

| member | source | states |
|---|---|---|
| BchCodec.BuildTables | src/fe/BchCodec.cc:16-26 | the shift-and-reduce loop fills the antilog table with the powers of alpha (twice, for wrap-free indexing) and the log table with its inverse |
| BchCodec.Codec.GfMul | src/fe/BchCodec.cc:67-71 | multiplication through the tables is multiplication in the field, including by zero |
| BchCodec.Codec.GfInv | src/fe/BchCodec.cc:73-76 | the table inverse of a non-zero element is its field inverse |
| BchCodec.Codec.GfPow | src/fe/BchCodec.cc:78-83 | the table power of a non-zero element is its field power, a negative exponent gives the inverse of the positive power, and the power of zero is zero |
| GfLog.AlphaOrder | src/fe/BchCodec.cc:16-26 | alpha is primitive: none of its powers from 1 to 254 is one |
| BchCodec.ConjugateClosure | src/fe/BchCodec.cc:28-35 | the insertion loop computes the closure of 1..2t under doubling modulo 255 |
| BchGenerator.ClosureLeast | src/fe/BchCodec.cc:28-35 | the collected exponents are contained in every set that holds 1..2t and is closed under doubling modulo 255 |
| BchGenerator.ExponentProductBinary | src/fe/BchCodec.cc:37-55 | for every duplicate-free list of exponents closed under doubling, in any order, the product of the linear factors has one coefficient more than roots, all of them zero or one, and vanishes exactly at the listed powers of alpha, so the non-binary throw is unreachable |
| BchCodec.RootProduct | src/fe/BchCodec.cc:37-47 | the in-place multiplication loop computes the product of the linear factors over the collected roots |
| BchCodec.Construct | src/fe/BchCodec.cc:13-65 | construction succeeds exactly for 1 <= t <= 30 and yields a codec whose tables, redundancy and generator are the ones the code theory asks for; the other two throws never happen |
| KnownAnswers.OneErrorCodeword | src/fe/BchCodec.cc:13-129 | with t = 1 the message whose last bit alone is set gets the parity 00011101: the generator is the primitive polynomial, its lowest coefficient last |
| BchCodec.Codec.EncodeParity | src/fe/BchCodec.cc:85-119 | refuses exactly the wrong data lengths; otherwise the packed parity is the final content of the division register |
| BchEncoding.EncodeIsMultiple | src/fe/BchCodec.cc:92-118 | message followed by register content is the generator times the polynomial of feedback bits, so the register computes m(x) x^(n-k) mod g(x) |
| BchCodec.Codec.EncodeCodeword | src/fe/BchCodec.cc:121-129 | the codeword keeps the message in its first k bits and has all 2t syndromes zero |
| BchEncoding.CodeIsEncoded | src/fe/BchCodec.cc:121-153 | a 255-bit word has 2t zero syndromes if and only if it is the encoding of its own first k bits |
| BchDecoder.ComputeSyndromes | src/fe/BchCodec.cc:131-146 | syndrome j is the word's polynomial evaluated at alpha^j |
| BchDecoder.IsCodeword | src/fe/BchCodec.cc:148-153 | for every string of at least 32 bytes, true exactly when its first 255 bits are a word of the code |
| BchDistance.BchBound | src/fe/BchCodec.cc:131-153 | no non-zero word of weight at most 2t has 2t zero syndromes |
| BchDistance.MinimumDistance | src/fe/BchCodec.cc:28-47 | distinct codewords differ in at least 2t + 1 bits |
| BchDecoder.DecodesToUnique | src/fe/BchCodec.cc:155-245 | at most one word can be a correct decoding of a received word |
| Recurrence.MasseyBound | src/fe/BchCodec.cc:172-207 | if a recurrence of length l fails on term r, every recurrence that generates it has length at least r + 1 - l |
| BerlekampMassey.Lengthen | src/fe/BchCodec.cc:188-198 | the length-changing branch keeps the loop invariant: constant term one, generation of the first r + 1 syndromes, and minimality of the length |
| BerlekampMassey.Adjust | src/fe/BchCodec.cc:199-206 | the branch that only corrects the polynomial keeps the same invariant |
| BerlekampMassey.Advance | src/fe/BchCodec.cc:186-187 | a zero discrepancy keeps the same invariant |
| BchDecoder.ShortestRecurrence | src/fe/BchCodec.cc:172-207 | the loop returns a recurrence that generates all the syndromes and whose length no shorter recurrence beats |
| BchDistance.RecurrenceLocatesErrors | src/fe/BchCodec.cc:172-229 | if a codeword lies within t of the received word, a shortest recurrence for its syndromes is as long as there are errors, and its polynomial vanishes exactly at the locators of the wrong bits |
| BchDecoder.ChienSearch | src/fe/BchCodec.cc:211-229 | the search lists exactly the positions at which the polynomial vanishes, in order |
| BchDecoder.DecodeCodeword | src/fe/BchCodec.cc:155-245 | exactly bounded-distance decoding: success if and only if a codeword lies within t, then that codeword and the number of differing bits; on failure the output is untouched and the count is -1 |
| InnerCode.ExtractBlock | src/fe/FuzzyExtractor.cc:94-100 | the packed copy of the given 255-bit slice, padding clear |
| Encoding.BitIsDigit | tests/test_encoding.cc:56-64 | bit i of a packed string is the binary digit of weight 2^(7 - i mod 8) of byte i / 8, the top bit of a byte first |
| InnerCode.RepetitionEncodeOffsets | src/fe/FuzzyExtractor.cc:116-126 | offset r of outer bit i says whether copy r differs from the first copy |
| InnerCode.RepetitionDecodeWithOffsets | src/fe/FuzzyExtractor.cc:140-154 | each outer bit is the majority of its realigned copies |
| KnownAnswers.FirstCopyIsReference | src/fe/FuzzyExtractor.cc:116-134 | of the copies 0, 1, 1 the first is the reference, and the published offsets are 1, 1 |
| InnerCode.VoteWrongIffMajorityFlipped | src/fe/FuzzyExtractor.cc:116-154 | the vote differs from the enrolled reference if and only if most of the copies flipped |
| FuzzyExtractor.Construct | src/fe/FuzzyExtractor.cc:54-74 | construction succeeds exactly for the parameters the code can serve, the entropy budget included when it is checked |
| KnownAnswers.EntropyBudget | src/fe/FuzzyExtractor.cc:54-74 | for two blocks that correct one error each, at half a bit of entropy, the budget of a 128-bit key is met if and only if the loss exponent is at most 55 |
| FuzzyExtractor.Gen | src/fe/FuzzyExtractor.cc:158-217 | refuses exactly wrong lengths; otherwise sketches, offsets and key are the specified functions of response and seed, and only the number of blocks is reported |
| FuzzyExtractor.Rep | src/fe/FuzzyExtractor.cc:219-298 | succeeds exactly when every block is recovered, with the key derived from the recovered response; any failure leaves the key empty; the statistics account for every block before the first sketch of a wrong size, and for none when a length is wrong |
| FuzzyExtractor.BlockRecoveredIffNear | src/fe/FuzzyExtractor.cc:250-274 | the sketch of an enrolled block recovers it from a measurement if and only if at most t bits changed |
| FuzzyExtractor.ResponseRecoveredIffNear | src/fe/FuzzyExtractor.cc:250-274 | the whole response is recovered if and only if every block is near enough |
| FuzzyExtractor.KeyReproduction | src/fe/FuzzyExtractor.cc:158-298 | rep on gen's helper data yields gen's key for every measurement whose blocks are all near enough, and recovers the enrolled response exactly then |
| FuzzyExtractor.KeyReproducedIff | src/fe/FuzzyExtractor.cc:158-298 | if nothing collides with the enrolled string, rep on gen's helper data returns gen's key if and only if every block is near enough |
| FuzzyExtractor.EnrolledKeysEqualIff | src/fe/FuzzyExtractor.cc:192-213 | if nothing collides with the first enrolled string, two enrolments under one seed have equal keys if and only if their outer blocks are equal |
| FuzzyExtractor.CodewordMessage | src/fe/FuzzyExtractor.cc:177-188 | the codeword of a block begins with the bits derived for that block |
| FuzzyExtractor.CodewordsSeparate | src/fe/FuzzyExtractor.cc:177-181 | short of a collision of the KDF, the bits derived for a block are derived for no other block or seed, and never as a key |
| FuzzyExtractor.RepShape | src/fe/FuzzyExtractor.cc:224-255 | a key comes only out of a measurement, sketches, offsets and a seed of the right sizes |
| FuzzyExtractor.FailuresCounted | src/fe/FuzzyExtractor.cc:250-274 | the failures reported are exactly the blocks near no codeword, however many there are |
| FuzzyExtractor.InnerCodeDistance | src/fe/FuzzyExtractor.cc:116-154 | with three copies a block is as far away as it has triples with two or more flips |
| FuzzyExtractor.AccountingExact | src/fe/FuzzyExtractor.cc:264-273 | on success the reported total is the Hamming distance between the measured outer bits and the recovered response, and no block changed by more than t |
| ReplayCache.ReplayCache.Offer | src/protocol/Protocol.cc:95-107 | a nonce is accepted exactly when it is not among the last capacity accepted ones; set and queue keep holding the same distinct nonces, at most capacity of them, and hits counts the refusals |
| ReplayCache.AcceptedTwice | src/protocol/Protocol.cc:95-107 | over any run a nonce is accepted twice only if at least capacity different other nonces were accepted in between |
| Credentials.PackCredentials | src/protocol/Protocol.cc:44-55 | the count, the entries in ascending id order, then the new identity |
| Credentials.UnpackCredentials | src/protocol/Protocol.cc:57-87 | succeeds exactly on blobs the format describes, refusing truncation and trailing bytes, and returns the maps read from left to right |
| Credentials.RoundTrip | src/protocol/Protocol.cc:44-87 | unpacking returns exactly what was packed, with an empty identity for a peer that has none, for every map whose ids, lengths and size fit sixteen bits |
| Credentials.PrefixFree | src/protocol/Protocol.cc:57-87 | of two blobs that unpack, neither is a proper prefix of the other: truncation and trailing bytes are refused |
| Credentials.EntryRead | src/protocol/Protocol.cc:64-78 | an entry sets credential and identity of the peer it names, replacing earlier ones, and of no other |
| KnownAnswers.PackedPackage | src/protocol/Protocol.cc:44-55 | the bytes of a package for two peers, one without an identity |
| Symbols.PairCredentialUnique | src/protocol/Protocol.cc:128-135 | the credential is symmetric in the pair, and different pairs of enrolled UAVs have different credentials |
| GroundStation.GroundStationProtocol.FindByTid | src/protocol/Protocol.cc:175-184 | the first device, in id order, whose current or pending identity is the given one |
| GroundStation.FirstHolder | src/protocol/Protocol.cc:175-184 | no device with a smaller id holds the identity |
| GroundStation.GroundStationProtocol.HandleM1 | src/protocol/Protocol.cc:198-292 | state, replay cache and reply after M1, in every branch |
| GroundStation.GroundStationProtocol.HandleM3 | src/protocol/Protocol.cc:294-392 | state and reply after M3, in every branch but that of a sealing that fails |
| UavProtocol.UavProtocol.StartPhase2 | src/protocol/Protocol.cc:420-476 | state and M1 of a new session, the old one dropped whole |
| UavProtocol.UavProtocol.HandleM2 | src/protocol/Protocol.cc:478-565 | state, replay cache and reply after M2, in every branch |
| UavProtocol.UavProtocol.HandleM4 | src/protocol/Protocol.cc:567-615 | state after M4, in every branch but that of an opened package that does not unpack |
| UavProtocol.UavProtocol.StartPhase3 | src/protocol/Protocol.cc:633-688 | state and P1 of a new exchange, or the refusal without a credential |
| UavProtocol.UavProtocol.HandleP1 | src/protocol/Protocol.cc:690-777 | state, replay cache and reply after P1, in every branch |
| UavProtocol.UavProtocol.HandleP2 | src/protocol/Protocol.cc:779-856 | state and reply after P2, in every branch, including the fields stored before anything is verified |
| UavProtocol.UavProtocol.HandleP3 | src/protocol/Protocol.cc:858-908 | state after P3, in every branch |
| Refusals.M1Refusals | src/protocol/Protocol.cc:198-224 | for each reason exactly which M1s are refused for it; stale are those dated more than the window before or after the clock |
| Refusals.M1Answered | src/protocol/Protocol.cc:226-242 | of the M1s that pass those checks exactly those with the tag over all five fields are answered |
| Refusals.M1Leaves | src/protocol/Protocol.cc:220-242 | a timely unseen nonce is remembered even if the M1 is refused after that, and nothing else is |
| Refusals.M1Stored | src/protocol/Protocol.cc:244-291 | the new session stores what M1 carried and M2 carries |
| Refusals.Start2Refusals | src/protocol/Protocol.cc:420-432 | Phase 2 starts exactly for a provisioned UAV with a regenerated key, and a refusal changes nothing |
| Refusals.M2Refusals | src/protocol/Protocol.cc:478-520 | for each reason exactly which M2s are refused for it |
| Refusals.M2Leaves | src/protocol/Protocol.cc:500-545 | a timely unseen nonce is remembered; an M2 that verifies too late is appended to the transcript; any other refusal leaves the session alone |
| Refusals.M3Refusals | src/protocol/Protocol.cc:294-304 | for each reason before the tag exactly which M3s are refused for it |
| Refusals.M3Answered | src/protocol/Protocol.cc:305-327 | for a session of the named device exactly when M3 fails on its tag, on derivation, and is answered |
| Refusals.M3Leaves | src/protocol/Protocol.cc:294-327 | a refused M3 changes nothing, except that one with the right tag marks the session as verified |
| Refusals.M3Stored | src/protocol/Protocol.cc:318-337 | an answered session is marked as verified and its secret is erased |
| Refusals.M4Refusals | src/protocol/Protocol.cc:567-596 | an M4 is accepted exactly if its package was sealed under the session's key and nonce for this request, and refused otherwise for the stated reason |
| Refusals.Start3Refusals | src/protocol/Protocol.cc:633-645 | an exchange is opened exactly with a peer that has an entry, and a refusal changes nothing |
| Refusals.P1Refusals | src/protocol/Protocol.cc:690-731 | for each reason exactly which P1s are refused for it |
| Refusals.P1Leaves | src/protocol/Protocol.cc:709-731 | a timely unseen nonce is remembered even if the P1 is refused after that; at most the sender's exchange changes |
| Refusals.P1Stored | src/protocol/Protocol.cc:733-776 | the new exchange stores what P1 carried and P2 carries |
| Refusals.P2Refusals | src/protocol/Protocol.cc:779-832 | for each reason exactly which P2s are refused for it |
| Refusals.P2Leaves | src/protocol/Protocol.cc:792-832 | a P2 for an open exchange of this UAV leaves its nonce and share there even if it is refused |
| Refusals.P3Refusals | src/protocol/Protocol.cc:858-890 | for each reason exactly which P3s are refused for it, and which are accepted |
| Preservation.OnM3Keeps | src/protocol/Protocol.cc:294-392 | whatever M3 is given, the ground station's invariants hold afterwards; an answer is sealed under the session's own key for the session's own nonces, holds a credential for every other device, and makes exactly the sealed identity pending |
| Preservation.OnP2Keeps | src/protocol/Protocol.cc:779-856 | whatever P2 is given, the UAV's invariants hold afterwards, and a P3 is sent only for an exchange completed with the pair's credential or the empty one and with both shares of the transcripts |
| Runs.RunInv | src/protocol/Protocol.cc:198-908 | the invariants of all parties, of everything sent and of the history hold after every run from enrolment, restarts of any phase at any time included |
| Authenticity.AuthenticM1 | src/protocol/Protocol.cc:226-242 | over all runs, an M1 that is answered was sent, in suite and every field, by the UAV it is answered to |
| Authenticity.AuthenticM2 | src/protocol/Protocol.cc:502-520 | over all runs, an M2 that a UAV accepts was sent to it, in suite and every field, by the ground station |
| Authenticity.AuthenticM3 | src/protocol/Protocol.cc:305-317 | over all runs, an M3 that is answered was sent, in suite and every field, by the UAV it is answered to |
| Authenticity.AuthenticM4 | src/protocol/Protocol.cc:567-596 | over all runs, the package and suite of an M4 that a UAV accepts were sent to it by the ground station |
| Authenticity.AuthenticP1 | src/protocol/Protocol.cc:713-731 | over all runs, a P1 that a UAV answers while it holds the credential was sent to it, in suite and every field, by the peer it is answered to |
| Authenticity.AuthenticP2 | src/protocol/Protocol.cc:806-824 | over all runs, a P2 that completes an exchange authenticated with the pair's credential was sent to the UAV, in suite and every field, by the peer |
| Authenticity.AuthenticP3 | src/protocol/Protocol.cc:858-886 | over all runs, a P3 that completes such an exchange was sent to the UAV, in suite and tag, by the peer |
| Agreement.Phase2Agreement | src/protocol/Protocol.cc:567-615 | over all runs, whenever a UAV accepts M4 the ground station sealed that package for it in a session with the same nonces, transcript and key, and the UAV ends with the credential of every pair it is in |
| Agreement.Phase2Confirmation | src/protocol/Protocol.cc:294-325 | over all runs, whenever the ground station answers an M3 the UAV it names had confirmed a session with the same transcript and derived the same session key |
| PeerAgreement.Phase3AgreementIff | src/protocol/Protocol.cc:858-908 | over all runs, when a responder accepts P3 in an exchange authenticated with the pair's credential its peer had become established on the same P1 and P2, and with every such completion the two keys are equal if and only if the responder still holds the credential exactly when the completion used it |
| PeerAgreement.InitiatorAgreementIff | src/protocol/Protocol.cc:779-856 | over all runs, when an initiator accepts P2 in such an exchange its peer had answered it with that P2, and the key is the one of the pair's credential and the shared secret if and only if the initiator still holds the credential |
| PeerAgreement.SameCredentialIff | src/protocol/Protocol.cc:432-433 | over all runs, the entries two UAVs have for each other are equal if and only if both are the pair's credential or both are empty |
| PeerRuns.DivergingRunExists | src/protocol/Protocol.cc:432-433 | for every initiator and responder some run makes the responder restart Phase 2 before the initiator's genuine P3, accept it with another key than the initiator's, store an empty credential, and open further exchanges under that |
| PeerRuns.AgreeingRunExists | src/protocol/Protocol.cc:198-908 | for every initiator and responder some careful run with fresh nonces, from enrolment, completes Phase 2 at both with the pair's credential and Phase 3 between them with the same key |
| CarefulRuns.RunHeld | src/protocol/Protocol.cc:779-908 | over runs in which no UAV restarts Phase 2 while a peer exchange of its is open, no credential is empty, every open exchange still has its credential, and no completed key uses an empty one |
| CarefulRuns.Phase3Agreement | src/protocol/Protocol.cc:779-908 | over those runs, when a responder becomes established on P3 its peer had become established on P2 with the same P1 and P2 transcripts and the same session key |
| CarefulRuns.SameCredential | src/protocol/Protocol.cc:128-135 | over those runs, two UAVs that both have an entry for each other hold the pair's credential |
| Agreement.RecognisedIff | src/protocol/Protocol.cc:175-184 | over all runs the ground station recognises a UAV's identity if and only if the UAV never rotated it or last rotated to the last identity sealed for it |
| Agreement.LostM4Strands | src/protocol/Protocol.cc:349-354 | after a first rotation, answering an M3 with a new identity makes every later M1 under the identity the UAV still holds fail |
| Stranding.StrandedRunExists | src/protocol/Protocol.cc:175-184 | in every deployment, for every UAV, some run with fresh nonces ends with the UAV holding an identity the ground station does not recognise |
| FreshRuns.AcceptedIsNewest | src/protocol/Protocol.cc:567-607 | over all runs with fresh Phase 2 nonces, the package a UAV accepts carries the identity of the newest package sealed for it, and the ground station recognises the UAV's new identity from then on |
| FreshRuns.SettledIsRecognised | src/protocol/Protocol.cc:175-184 | over those runs, the ground station recognises the identity of a UAV that has accepted every package sealed for it since its first rotation |
| FreshRuns.RecognisedAtStarts | src/protocol/Protocol.cc:349-354 | over those runs, a UAV that accepts every package sealed for it after its first rotation before its next session starts is recognised at the start of every session |
| Packages.SealedUnpacks | src/protocol/Protocol.cc:338-356 | over all runs, for every rendering of values as byte strings of their sizes, each package that was sealed unpacks to what was packed |
| Packages.AcceptedUnpacks | src/protocol/Protocol.cc:599-608 | over all runs, what a UAV installs on accepting M4 is what unpacking the ground station's bytes gives: the pair's credential and the enrolled identity of every other UAV, and the new identity |
| SingleUse.Phase2KeyFinal | src/protocol/Protocol.cc:538-565 | after any run, a UAV's Phase 2 key, once derived, stays through every continuation, whatever arrives in it, in which that UAV does not send a new M1 |
| SingleUse.GsKeyFinal | src/protocol/Protocol.cc:319-337 | after any run, the ground station's key for a UAV, once derived, stays through every continuation, whatever arrives in it, in which no new M1 from it is accepted |
| SingleUse.PeerKeyFinal | src/protocol/Protocol.cc:834-847 | after any run, a peer key, once derived, stays through every continuation, rejected messages naming the peer included, in which the UAV neither sends the peer a new P1 nor accepts one from it |
| SingleUse.AnsweredAtMostOnce | src/protocol/Protocol.cc:294-337 | after any run, through every continuation that installs no new session for it, a ground-station session answers at most one M3, and none if it had answered before |
| SingleUse.RejectedM3Harmless | src/protocol/Protocol.cc:294-318 | an M3 that would be answered gets the same answer after any sequence of rejected ones |
| SingleUse.RejectedHarmless | src/protocol/Protocol.cc:567-908 | in every state the invariants allow, whatever any sequence of rejected M4s, P2s and P3s has stored, an M4, P2 or P3 that would have succeeded before it gets the same reply and leaves the same identity, session and exchange, keys included |
| Blocking.GenuineM1Iff | src/protocol/Protocol.cc:220-242 | after any sequence of rejected M1s the genuine M1 is answered as before if and only if its nonce is not among the recent ones, and otherwise fails as replayed |
| Blocking.GenuineM2Iff | src/protocol/Protocol.cc:500-516 | the same for M2 after any sequence of rejected M2s, before the key is derived |
| Blocking.GenuineP1Iff | src/protocol/Protocol.cc:710-731 | the same for P1 after any sequence of rejected P1s |
| Blocking.BlockedPhase2Exists | src/protocol/Protocol.cc:220-242 | in every deployment with a replay cache, for every UAV, some run blocks a genuine M1 of that UAV and some run a genuine M2 to it by a forged copy |
| Blocking.BlockedPhase3Exists | src/protocol/Protocol.cc:710-731 | in every such deployment, for every initiator and responder, some run blocks a genuine P1 between them by a forged copy |
| HonestRun.Phase2Completes | src/protocol/Protocol.cc:198-615 | an undisturbed Phase 2 with the right response succeeds at every message; both ends hold the same key, and the UAV's new identity is the one the ground station expects |
| HonestRun.Phase3Completes | src/protocol/Protocol.cc:633-908 | an undisturbed exchange between holders of the pair's credential establishes the same key at both |
| AsconPermutation.AsconRound | src/crypto/ascon/Ascon128a.cc:47-77 | the in-place round is constant addition, substitution and diffusion |
| AsconPermutation.SubstituteIsTable | src/crypto/ascon/Ascon128a.cc:52-70 | the bitsliced substitution applies the specification's five-bit table to every column of the state |
| AsconPermutation.DiffuseBit | src/crypto/ascon/Ascon128a.cc:27-29 | bit i of a diffused word is the sum of its bits i, i + a and i + b |
| AsconPermutation.SpreadOrder | src/crypto/ascon/Ascon128a.cc:72-77 | every three-term rotation layer has the identity as its sixty-fourth power |
| AsconPermutation.RoundInvertible | src/crypto/ascon/Ascon128a.cc:47-77 | the round has a two-sided inverse |
| AsconPermutation.PermuteInvertible | src/crypto/ascon/Ascon128a.cc:79-81 | for every round count up to twelve the permutation has a two-sided inverse |
| AsconPermutation.PermuteInPlace | src/crypto/ascon/Ascon128a.cc:79-81 | the loop applies the last rounds of the twelve, in order |
| AsconWords.LoadStore | src/crypto/ascon/Ascon128a.cc:31-42 | loading a stored word gives it back |
| AsconWords.StoreLoad | src/crypto/ascon/Ascon128a.cc:31-42 | storing a loaded word gives its bytes back |
| AsconAead.AbsorbAssociatedData | src/crypto/ascon/Ascon128a.cc:102-120 | the in-place absorption is the block recursion; empty data absorbs no block |
| AsconAead.Ascon128aEncrypt | src/crypto/ascon/Ascon128a.cc:160-205 | refuses exactly wrong key or nonce lengths, with empty output; otherwise the ciphertext is the specified one |
| AsconAead.Ascon128aDecrypt | src/crypto/ascon/Ascon128a.cc:207-263 | succeeds exactly when lengths and tag are right, then returns the specified plaintext; otherwise the output is empty |
| AsconAead.DecEnc | src/crypto/ascon/Ascon128a.cc:172-190 | decrypting what was encrypted from the same state gives the text back and ends in the same state |
| AsconAead.AcceptedIffEncryption | src/crypto/ascon/Ascon128a.cc:160-263 | a ciphertext is accepted with a plaintext if and only if it is the encryption of that plaintext, for every key, nonce, associated data and length |
| AsconAead.TagReached | src/crypto/ascon/Ascon128a.cc:122-132 | for every key every sixteen bytes are the tag of some state |
| AsconAead.TagKeyChange | src/crypto/ascon/Ascon128a.cc:122-132 | the key enters before and after the last permutation: on states that differ by two keys there, the tags differ by the keys |
| AsconVectors.EmptyVector | tests/kat/ascon128a_kat.h:49-50 | the designers' first vector, computed round by round |
| AsconVectors.WholeVector | tests/kat/ascon128a_kat.h:63-64 | vector 545: one whole block each of associated data and text |
| AsconVectors.LongVector | tests/kat/ascon128a_kat.h:67-68 | vector 579: one whole block and one byte each of associated data and text |
| Spongent160.PLayerMoves | src/crypto/spongent/Spongent160.cc:84-87 | the bit layer moves bit j to index(j) for every state and every j |
| Spongent160.IndexInverse | src/crypto/spongent/Spongent160.cc:84-87 | index is a permutation of 0..175, with multiplication by 4 modulo 175 as its inverse |
| Spongent160.PLayerTable.constructor | src/crypto/spongent/Spongent160.cc:49-65 | row (i, v) of the built table has exactly the bits that the set bits of byte i with value v move to |
| Spongent160.SumStep | src/crypto/spongent/Spongent160.cc:115-127 | adding one more row cancels nothing: every bit of the sum has one source |
| Spongent160.BitLayer | src/crypto/spongent/Spongent160.cc:114-132 | the table-driven layer computes the plain bit permutation |
| Spongent160.PermuteInvertible | src/crypto/spongent/Spongent160.cc:96-133 | the ninety-round permutation has a two-sided inverse on 176-bit states |
| Spongent160.SpongentPermute | src/crypto/spongent/Spongent160.cc:96-133 | the in-place code computes that permutation |
| Spongent160.ReverseBit | src/crypto/spongent/Spongent160.cc:16-26 | byte reversal moves each bit to the opposite place |
| Spongent160.LfsrSteps | src/crypto/spongent/Spongent160.cc:89-94 | the counter stays within seven bits, never becomes zero, and is injective |
| Spongent160.StateBitIsDigit | src/crypto/spongent/Spongent160.cc:55-62 | bit j of the state is the binary digit of weight 2^(j mod 8) of byte j / 8 |
| Spongent160.ConstantBits | src/crypto/spongent/Spongent160.cc:100-107 | before the S-box the counter's digits flip bits 0 to 6 and, reversed, bits 175 down to 169, and no other bit changes |
| Spongent160.RoundCounter | src/crypto/spongent/Spongent160.cc:96-133 | different counters give different results of a round, on every state |
| SpongentVectors.PLayerByte | src/crypto/spongent/Spongent160.cc:49-65 | a byte of the permuted state is joined from one plane of neighbouring nibbles, or two at its ends |
| SpongentVectors.PermutedPadding | src/crypto/spongent/Spongent160.cc:96-133 | the ninety rounds on the padding block of the empty message, computed round by round |
| SpongentVectors.EmptyDigest | tests/test_spongent.cc:61-62 | the first two bytes of the digest of the empty message |
| Sponge.SpongeAbsorbSqueeze | src/crypto/spongent/Spongent160.cc:157-200 | the in-place sponge computes absorb-then-squeeze of the padded input |
| Sponge.PaddedInjective | src/crypto/spongent/Spongent160.cc:173-187 | different inputs feed different blocks to the permutation |
| Sponge.PaddedBytes | src/crypto/spongent/Spongent160.cc:173-187 | the message, 0x80, and zeros up to the next whole block |
| Sponge.OutputByte | src/crypto/spongent/Spongent160.cc:157-200 | output byte k is byte k mod 2 of the state after k / 2 permutations more than there are blocks, each block added to the whole state |
| Sponge.OutputPrefix | src/crypto/spongent/Spongent160.cc:189-197 | a shorter output is a prefix of a longer one |
| SpongentSuite.RequestsDisjoint | src/crypto/SpongentSuite.cc:38-110 | two requests, of the same or different kinds, that feed the same padded blocks are the same request in every field, the output length included |
| KnownAnswers.AbsorbedStrings | src/crypto/SpongentSuite.cc:38-110 | the strings that a hash, a MAC and a key derivation of one-byte fields absorb |
| SpongentSuite.SpongentSuite.Hash160 | src/crypto/SpongentSuite.cc:38-49 | the digest of the domain byte and the length-prefixed message |
| SpongentSuite.SpongentSuite.MacVerify | src/crypto/SpongentSuite.cc:51-76 | accepts exactly the tag that the MAC computes |
| SpongentSuite.SpongentSuite.KdfRaw | src/crypto/SpongentSuite.cc:78-110 | refuses exactly lengths beyond 65535; otherwise absorbs every field length-prefixed, and the output length |
| ConstrainedProfile.ProfileReproduction | src/crypto/SpongentSuite.cc:78-125 | an extractor built over this suite reproduces the enrolled key from every measurement whose blocks are all near enough |
| ConstrainedProfile.ExtractSeparate | src/crypto/SpongentSuite.cc:118-125 | extraction squeezes 32 bytes out of one KDF request, which feeds the permutation other blocks than every other request: another source or salt, another label, another length, a hash or a MAC |
| ConstrainedProfile.KdfSqueezes | src/crypto/SpongentSuite.cc:78-116 | a derived key is squeezed out of the request that names its inputs, label and length |

## Left out

- FuzzyExtractor.KeyReproducedIff: assumes that nothing collides with the enrolled string under the suite's extraction and expansion, which no function of fixed output length can promise for all strings.
- AsconVectors.LongVector: three of the 1089 vectors appear, one for every way a last block can end.
- SpongentVectors.EmptyDigest: two of the twenty bytes, which take one permutation; Sponge.OutputByte says what the others are.
- OMNeT++ and INET nodes, the wireless medium, the attacker node, timing, counters and statistics: plumbing.
- `src/crypto/Sha3Suite.cc`, `src/crypto/X25519.cc` and the RSA and ECDSA suites call OpenSSL; only their stated contracts appear.
- `core/Bytes` and `core/Encoding` are not part of this model. Bit access, XOR, sixteen-bit numbers and length prefixes behave as `tests/test_encoding.cc` pins them; domain bytes are parameters that must differ.
- Credentials.RoundTrip: ids, lengths and the number of entries are below 65536, because the fields that carry them have sixteen bits.
- SpongentSuite.RequestsDisjoint: length-prefixed fields are below 65536 bytes; what longer ones encode to is decided in `core/Encoding`.
- BchCodec.Construct: the primitive polynomial is fixed to 0x11D, the default no caller overrides; local vectors that the C++ code resizes are sequences.
- FuzzyExtractor.Construct: the entropy budget uses real numbers, so rounding is not captured; `extract` and `kdf` are arbitrary functions, with `kdf` returning the length asked for up to 65535 bytes.
- Spongent160.BitLayer: the rows are added byte by byte; the source adds three 64-bit words copied from and to bytes, which has the same effect on either byte order.
- CarefulRuns.Phase3Agreement: assumes that no UAV restarts Phase 2 while a peer exchange is open, without which agreement is false, as PeerRuns.DivergingRunExists shows; PeerAgreement.Phase3AgreementIff is the statement for all runs.
- PeerAgreement.Phase3AgreementIff: speaks of exchanges authenticated with the pair's credential; those under an empty one are open to forgery.
- Blocking.GenuineM2Iff: speaks of M2s whose tags the network could have delivered, since one that verifies without a usable share changes the session.
- Agreement.Phase2Agreement: the transcript compared is the one the session key is bound to; a UAV that later verifies another M2 appends it to its transcript without deriving again.
- GroundStation.GroundStationProtocol.HandleM3: sealing always succeeds, so the refusal at `src/protocol/Protocol.cc:375`, which comes after the pending identity is set, is not modelled; key and nonce are cut from a derived string to the suite's own lengths, and Ascon-128a refuses nothing else, as AsconAead.Ascon128aEncrypt shows.
- UavProtocol.UavProtocol.HandleM4: a package that opens is a value, so the refusal at `src/protocol/Protocol.cc:601-602` of one that does not unpack is not modelled; only packed packages are sealed, and Packages.SealedUnpacks shows that those unpack.
- Symbols.Derive: a 32-byte string that is no public key gives a secret of its own with every scalar, and only `LowOrder` terms are refused; which encodings are of small order, and that some points have two encodings, is left to OpenSSL.
- FreshRuns.RecognisedAtStarts: assumes that a nonce drawn for a Phase 2 session at either end has never been sent before.
- Preservation.OnM3Keeps: as for HandleM3, sealing always succeeds.
- `enroll`, `injectPeerCredential`, legacy mode, `BaselineSigAuth`, `Drbg`, memory wiping and constant-time comparison (modelled as equality).
- Secrecy and probabilities: collision resistance, failure rates, min-entropy estimates, the PUF model.
- The Python prototype and the statistics scripts.
