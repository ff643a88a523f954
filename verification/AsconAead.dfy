// Ascon-128a authenticated encryption: the in-place code, the block recursion it computes, and their inverse laws.
module AsconAead {
  import opened Wrappers
  import opened Bits
  import opened AsconPermutation
  import opened AsconWords

  const RATE: nat := 16
  const TAG: nat := 16
  const IV: Word := Word(0x8080_0c08_0000_0000)

  // ---------- the mode as a recursion over blocks ----------

  function Zeros(n: nat): (r: Bytes)
    ensures |r| == n && forall i :: 0 <= i < n ==> r[i] == 0
  {
    if n == 0 then [] else Zeros(n - 1) + [0]
  }

  // 10* padding up to one block.
  function Pad(b: Bytes): (r: Bytes)
    requires |b| < RATE
    ensures |r| == RATE
  {
    b + [0x80] + Zeros(RATE - 1 - |b|)
  }

  function Initial(key: Bytes, nonce: Bytes): State
    requires |key| == 16 && |nonce| == 16
  {
    var s := Permute(State(IV, Load(key[..8]), Load(key[8..]), Load(nonce[..8]), Load(nonce[8..])), ROUNDS_A);
    s.(x3 := Xor(s.x3, Load(key[..8])), x4 := Xor(s.x4, Load(key[8..])))
  }

  function AddBlock(s: State, b: Bytes): State
    requires |b| == RATE
  {
    SetRate(s, XorBytes(RateBytes(s), b))
  }

  function AbsorbBlocks(s: State, ad: Bytes): State
    decreases |ad|
  {
    hide Permute, SetRate, RateBytes, XorBytes, AddBlock, Pad;
    if |ad| < RATE then Permute(AddBlock(s, Pad(ad)), ROUNDS_B)
    else AbsorbBlocks(Permute(AddBlock(s, ad[..RATE]), ROUNDS_B), ad[RATE..])
  }

  // Empty associated data absorbs no block at all; the last bit of the state is flipped in any case.
  function Absorb(s: State, ad: Bytes): State {
    var t := if |ad| == 0 then s else AbsorbBlocks(s, ad);
    t.(x4 := Xor(t.x4, Word(1)))
  }

  datatype Body = Body(text: Bytes, state: State)

  function EncBody(s: State, pt: Bytes): (r: Body)
    ensures |r.text| == |pt|
    decreases |pt|
  {
    hide Permute, SetRate, RateBytes, XorBytes, Pad;
    if |pt| < RATE then
      var c := XorBytes(RateBytes(s), Pad(pt));
      Body(c[..|pt|], SetRate(s, c))
    else
      var c := XorBytes(RateBytes(s), pt[..RATE]);
      var rest := EncBody(Permute(SetRate(s, c), ROUNDS_B), pt[RATE..]);
      Body(c + rest.text, rest.state)
  }

  // The rate after a short last block: the ciphertext, then the old rate with the padding bit flipped.
  function LastRate(r: Bytes, ct: Bytes): (q: Bytes)
    requires |r| == RATE && |ct| < RATE
    ensures |q| == RATE
  {
    ct + [XorByte(r[|ct|], 0x80)] + r[|ct| + 1..]
  }

  function DecBody(s: State, ct: Bytes): (r: Body)
    ensures |r.text| == |ct|
    decreases |ct|
  {
    hide Permute, SetRate, RateBytes, XorBytes, LastRate;
    var r := RateBytes(s);
    if |ct| < RATE then
      Body(XorBytes(r[..|ct|], ct), SetRate(s, LastRate(r, ct)))
    else
      var rest := DecBody(Permute(SetRate(s, ct[..RATE]), ROUNDS_B), ct[RATE..]);
      Body(XorBytes(r, ct[..RATE]) + rest.text, rest.state)
  }

  function Tag(s: State, key: Bytes): (t: Bytes)
    requires |key| == 16
    ensures |t| == TAG
  {
    var k0, k1 := Load(key[..8]), Load(key[8..]);
    var u := Permute(s.(x2 := Xor(s.x2, k0), x3 := Xor(s.x3, k1)), ROUNDS_A);
    Store(Xor(u.x3, k0)) + Store(Xor(u.x4, k1))
  }

  function Encrypt(key: Bytes, nonce: Bytes, ad: Bytes, pt: Bytes): (ct: Bytes)
    requires |key| == 16 && |nonce| == 16
    ensures |ct| == |pt| + TAG
  {
    var b := EncBody(Absorb(Initial(key, nonce), ad), pt);
    b.text + Tag(b.state, key)
  }

  function Decrypt(key: Bytes, nonce: Bytes, ad: Bytes, ct: Bytes): Option<Bytes>
    requires |key| == 16 && |nonce| == 16
  {
    if |ct| < TAG then None else
      var n := |ct| - TAG;
      var b := DecBody(Absorb(Initial(key, nonce), ad), ct[..n]);
      if Tag(b.state, key) == ct[n..] then Some(b.text) else None
  }

  // ---------- decryption and encryption are inverse ----------

  lemma RawXorByteTwice(v: bv8, w: bv8) ensures XorByte(v, XorByte(v, w)) == w {}

  lemma RawXorByteZero(v: bv8) ensures XorByte(v, 0) == v {}

  lemma XorBytesTwice(r: Bytes, p: Bytes)
    requires |r| == |p|
    ensures XorBytes(r, XorBytes(r, p)) == p
  {
    hide XorByte, GetBit;
    forall i | 0 <= i < |p| ensures XorBytes(r, XorBytes(r, p))[i] == p[i] { RawXorByteTwice(r[i], p[i]); }
  }

  // Both directions rebuild the same rate from a short last block.
  lemma LastRateIsPadded(r: Bytes, pt: Bytes)
    requires |r| == RATE && |pt| < RATE
    ensures LastRate(r, XorBytes(r[..|pt|], pt)) == XorBytes(r, Pad(pt))
    ensures XorBytes(r, Pad(pt))[..|pt|] == XorBytes(r[..|pt|], pt)
  {
    hide XorByte, GetBit;
    var n := |pt|;
    var p := Pad(pt);
    var c := XorBytes(r, p);
    var q := LastRate(r, XorBytes(r[..n], pt));
    forall i | n < i < RATE ensures q[i] == c[i] {
      assert p[i] == 0;
      RawXorByteZero(r[i]);
    }
    assert p[n] == 0x80;
    assert forall i :: 0 <= i < n ==> p[i] == pt[i];
  }

  // Decrypting what was encrypted from the same state gives the text back and ends in the same state.
  lemma {:induction false} DecEnc(s: State, pt: Bytes)
    ensures DecBody(s, EncBody(s, pt).text) == Body(pt, EncBody(s, pt).state)
    decreases |pt|
  {
    hide Permute, XorBytes, SetRate, RateBytes, XorByte, LastRate, Pad;
    var r := RateBytes(s);
    if |pt| < RATE {
      LastRateIsPadded(r, pt);
      XorBytesTwice(r[..|pt|], pt);
    } else {
      var c := XorBytes(r, pt[..RATE]);
      XorBytesTwice(r, pt[..RATE]);
      var t := Permute(SetRate(s, c), ROUNDS_B);
      DecEnc(t, pt[RATE..]);
      var ct := EncBody(s, pt).text;
      assert ct[..RATE] == c && ct[RATE..] == EncBody(t, pt[RATE..]).text;
      assert pt[..RATE] + pt[RATE..] == pt;
    }
  }

  // Every string is the encryption, from the same state, of what it decrypts to.
  lemma {:induction false} EncDec(s: State, ct: Bytes)
    ensures EncBody(s, DecBody(s, ct).text) == Body(ct, DecBody(s, ct).state)
    decreases |ct|
  {
    hide Permute, XorBytes, SetRate, RateBytes, XorByte, LastRate, Pad;
    var r := RateBytes(s);
    if |ct| < RATE {
      var pt := XorBytes(r[..|ct|], ct);
      LastRateIsPadded(r, pt);
      XorBytesTwice(r[..|ct|], ct);
    } else {
      var p := XorBytes(r, ct[..RATE]);
      XorBytesTwice(r, ct[..RATE]);
      var t := Permute(SetRate(s, ct[..RATE]), ROUNDS_B);
      EncDec(t, ct[RATE..]);
      var pt := DecBody(s, ct).text;
      assert pt[..RATE] == p && pt[RATE..] == DecBody(t, ct[RATE..]).text;
      assert ct[..RATE] + ct[RATE..] == ct;
    }
  }

  // A ciphertext is accepted, with plaintext pt, exactly when it is the encryption of pt.
  lemma AcceptedIffEncryption(key: Bytes, nonce: Bytes, ad: Bytes, ct: Bytes, pt: Bytes)
    requires |key| == 16 && |nonce| == 16
    ensures Decrypt(key, nonce, ad, ct) == Some(pt) <==> ct == Encrypt(key, nonce, ad, pt)
  {
    hide EncBody, DecBody, Tag, Absorb, Initial;
    var s := Absorb(Initial(key, nonce), ad);
    if ct == Encrypt(key, nonce, ad, pt) {
      DecEnc(s, pt);
      assert ct[..|ct| - TAG] == EncBody(s, pt).text;
      assert ct[|ct| - TAG..] == Tag(EncBody(s, pt).state, key);
    }
    if Decrypt(key, nonce, ad, ct) == Some(pt) {
      EncDec(s, ct[..|ct| - TAG]);
      assert ct == ct[..|ct| - TAG] + ct[|ct| - TAG..];
    }
  }

  // ---------- the tag ----------

  // For every key, every sixteen bytes are the tag of some state.
  lemma TagReached(key: Bytes, t: Bytes)
    requires |key| == 16 && |t| == TAG
    ensures exists s :: Tag(s, key) == t
  {
    hide Load, Store, Xor, Permute, Unpermute;
    var k0, k1 := Load(key[..8]), Load(key[8..]);
    var t0, t1 := Load(t[..8]), Load(t[8..]);
    var u := State(Word(0), Word(0), Word(0), Xor(t0, k0), Xor(t1, k1));
    var v := Unpermute(u, ROUNDS_A);
    var s := v.(x2 := Xor(v.x2, k0), x3 := Xor(v.x3, k1));
    PermuteInvertible(u, ROUNDS_A);
    XorTwice(v.x2, k0);
    XorTwice(v.x3, k1);
    XorTwice(t0, k0);
    XorTwice(t1, k1);
    StoreLoad(t[..8]);
    StoreLoad(t[8..]);
    assert t[..8] + t[8..] == t;
    assert Tag(s, key) == t;
  }

  // The key enters before the last permutation and after it: on states that differ by the two keys in the middle, the
  // tags differ by the keys.
  lemma TagKeyChange(s: State, key: Bytes, key': Bytes)
    requires |key| == 16 && |key'| == 16
    ensures var d0, d1 := Xor(Load(key[..8]), Load(key'[..8])), Xor(Load(key[8..]), Load(key'[8..]));
            XorBytes(Tag(s, key), key) == XorBytes(Tag(s.(x2 := Xor(s.x2, d0), x3 := Xor(s.x3, d1)), key'), key')
  {
    hide Load, Store, Xor, Permute, XorBytes, Tag;
    var k0, k1, l0, l1 := Load(key[..8]), Load(key[8..]), Load(key'[..8]), Load(key'[8..]);
    var t := s.(x2 := Xor(s.x2, Xor(k0, l0)), x3 := Xor(s.x3, Xor(k1, l1)));
    XorCancels(s.x2, k0, l0);
    XorCancels(s.x3, k1, l1);
    var u := Permute(s.(x2 := Xor(s.x2, k0), x3 := Xor(s.x3, k1)), ROUNDS_A);
    TagUnmasked(s, key);
    TagUnmasked(t, key');
  }

  lemma XorCancels(x: Word, k: Word, l: Word)
    ensures Xor(Xor(x, Xor(k, l)), l) == Xor(x, k)
  {
    hide Xor;
    XorAssoc(x, Xor(k, l), l);
    XorTwice(k, l);
  }

  // Without the outer key addition a tag is the last two words of the permuted state.
  lemma TagUnmasked(s: State, key: Bytes)
    requires |key| == 16
    ensures var u := Permute(s.(x2 := Xor(s.x2, Load(key[..8])), x3 := Xor(s.x3, Load(key[8..]))), ROUNDS_A);
            XorBytes(Tag(s, key), key) == Store(u.x3) + Store(u.x4)
  {
    hide Load, Store, Xor, Permute, XorBytes, GetBit;
    var k0, k1 := Load(key[..8]), Load(key[8..]);
    var u := Permute(s.(x2 := Xor(s.x2, k0), x3 := Xor(s.x3, k1)), ROUNDS_A);
    StoreLoad(key[..8]);
    StoreLoad(key[8..]);
    StoreXor(Xor(u.x3, k0), k0);
    StoreXor(Xor(u.x4, k1), k1);
    XorTwice(u.x3, k0);
    XorTwice(u.x4, k1);
    XorBytesConcat(Store(Xor(u.x3, k0)), Store(Xor(u.x4, k1)), key[..8], key[8..]);
    assert key[..8] + key[8..] == key;
  }

  // ---------- the in-place code ----------

  method AddBytes(x: array<Word>, b: Bytes)
    requires x.Length == 5 && |b| == RATE
    modifies x
    ensures StateOf(x) == AddBlock(old(StateOf(x)), b)
  {
    hide Load, Xor, SetRate, XorBytes, RateBytes;
    var w := Load64be(b[..8]);
    x[0] := Xor(x[0], w);
    w := Load64be(b[8..]);
    x[1] := Xor(x[1], w);
    AddToRate(old(StateOf(x)), b);
  }

  method Initialise(x: array<Word>, key: Bytes, nonce: Bytes)
    requires x.Length == 5 && |key| == 16 && |nonce| == 16
    modifies x
    ensures StateOf(x) == Initial(key, nonce)
  {
    hide Load, Xor, Permute, IV;
    var k0 := Load64be(key[..8]);
    var k1 := Load64be(key[8..]);
    x[0] := IV;
    x[1] := k0;
    x[2] := k1;
    x[3] := Load64be(nonce[..8]);
    x[4] := Load64be(nonce[8..]);
    PermuteInPlace(x, ROUNDS_A);
    x[3] := Xor(x[3], k0);
    x[4] := Xor(x[4], k1);
  }

  // The padded last block, built in a cleared buffer.
  method PadBlock(tail: Bytes) returns (block: Bytes)
    requires |tail| < RATE
    ensures block == Pad(tail)
  {
    var buffer := new bv8[RATE](_ => 0);
    for i := 0 to |tail|
      invariant buffer[..i] == tail[..i]
      invariant forall j :: i <= j < RATE ==> buffer[j] == 0
    {
      buffer[i] := tail[i];
    }
    buffer[|tail|] := 0x80;
    block := buffer[..];
    assert block[..|tail|] == tail;
    assert block == Pad(tail);
  }

  method AbsorbAssociatedData(x: array<Word>, ad: Bytes)
    requires x.Length == 5
    modifies x
    ensures StateOf(x) == Absorb(old(StateOf(x)), ad)
  {
    if |ad| != 0 { AbsorbLoop(x, ad); }
    FlipLast(x);
  }

  method FlipLast(x: array<Word>)
    requires x.Length == 5
    modifies x
    ensures var s := old(StateOf(x)); StateOf(x) == s.(x4 := Xor(s.x4, Word(1)))
  {
    hide Xor;
    x[4] := Xor(x[4], Word(1));
  }

  method AbsorbLoop(x: array<Word>, ad: Bytes)
    requires x.Length == 5
    modifies x
    ensures StateOf(x) == AbsorbBlocks(old(StateOf(x)), ad)
  {
    hide Permute, AddBlock, StateOf, Pad;
    var offset := 0;
    assert ad[0..] == ad;
    while offset + RATE <= |ad|
      invariant 0 <= offset <= |ad|
      invariant AbsorbBlocks(StateOf(x), ad[offset..]) == AbsorbBlocks(old(StateOf(x)), ad)
      decreases |ad| - offset
    {
      assert ad[offset..][..RATE] == ad[offset..offset + RATE] && ad[offset..][RATE..] == ad[offset + RATE..];
      AddBytes(x, ad[offset..offset + RATE]);
      PermuteInPlace(x, ROUNDS_B);
      offset := offset + RATE;
    }
    var block := PadBlock(ad[offset..]);
    AddBytes(x, block);
    PermuteInPlace(x, ROUNDS_B);
  }

  method Finalise(x: array<Word>, key: Bytes, tag: array<bv8>)
    requires x.Length == 5 && |key| == 16 && tag.Length == TAG
    modifies x, tag
    ensures tag[..] == Tag(old(StateOf(x)), key)
  {
    hide Load, Xor, Permute, Store;
    var k0 := Load64be(key[..8]);
    var k1 := Load64be(key[8..]);
    x[2] := Xor(x[2], k0);
    x[3] := Xor(x[3], k1);
    PermuteInPlace(x, ROUNDS_A);
    Store64be(tag, 0, Xor(x[3], k0));
    assert tag[..8] == Store(Xor(x[3], k0));
    Store64be(tag, 8, Xor(x[4], k1));
  }

  method StoreRate(x: array<Word>, block: array<bv8>)
    requires x.Length == 5 && block.Length == RATE
    modifies block
    ensures block[..] == RateBytes(StateOf(x))
  {
    hide Store;
    Store64be(block, 0, x[0]);
    assert block[..8] == Store(x[0]);
    Store64be(block, 8, x[1]);
  }

  method LoadRate(x: array<Word>, b: Bytes)
    requires x.Length == 5 && |b| == RATE
    modifies x
    ensures StateOf(x) == SetRate(old(StateOf(x)), b)
  {
    hide Load;
    x[0] := Load64be(b[..8]);
    x[1] := Load64be(b[8..]);
  }

  lemma AddBlockRate(s: State, b: Bytes)
    requires |b| == RATE
    ensures RateBytes(AddBlock(s, b)) == XorBytes(RateBytes(s), b)
  {
    hide SetRate, RateBytes, XorBytes;
    RateOfSetRate(s, XorBytes(RateBytes(s), b));
  }

  // Encrypts every full block in place, then the padded last one.
  method EncryptBody(x: array<Word>, pt: Bytes) returns (ct: Bytes)
    requires x.Length == 5
    modifies x
    ensures Body(ct, StateOf(x)) == EncBody(old(StateOf(x)), pt)
  {
    hide Permute, AddBlock, StateOf, Pad, RateBytes, XorBytes, SetRate;
    ct := [];
    var block := new bv8[RATE];
    var offset := 0;
    ghost var s0 := StateOf(x);
    EncPrefixStart(s0, pt);
    while offset + RATE <= |pt|
      invariant 0 <= offset <= |pt|
      invariant EncPrefix(s0, pt, offset, ct, StateOf(x))
      decreases |pt| - offset
    {
      ghost var s := StateOf(x);
      AddBytes(x, pt[offset..offset + RATE]);
      StoreRate(x, block);
      AddBlockRate(s, pt[offset..offset + RATE]);
      ct := ct + block[..];
      PermuteInPlace(x, ROUNDS_B);
      EncPrefixNext(s0, pt, offset, ct[..|ct| - RATE], s, block[..]);
      assert ct == ct[..|ct| - RATE] + block[..];
      offset := offset + RATE;
    }
    ghost var s := StateOf(x);
    var tail := PadBlock(pt[offset..]);
    AddBytes(x, tail);
    StoreRate(x, block);
    AddBlockRate(s, tail);
    EncPrefixEnd(s0, pt, offset, ct, s);
    ct := ct + block[..|pt| - offset];
  }

  ghost predicate EncPrefix(s0: State, pt: Bytes, offset: nat, ct: Bytes, s: State) {
    offset <= |pt| && Body(ct + EncBody(s, pt[offset..]).text, EncBody(s, pt[offset..]).state) == EncBody(s0, pt)
  }

  lemma EncPrefixStart(s0: State, pt: Bytes)
    ensures EncPrefix(s0, pt, 0, [], s0)
  {
    hide EncBody;
    assert pt[0..] == pt;
    assert [] + EncBody(s0, pt).text == EncBody(s0, pt).text;
  }

  lemma EncPrefixNext(s0: State, pt: Bytes, offset: nat, ct: Bytes, s: State, c: Bytes)
    requires offset + RATE <= |pt| && EncPrefix(s0, pt, offset, ct, s)
    requires c == XorBytes(RateBytes(s), pt[offset..offset + RATE])
    ensures EncPrefix(s0, pt, offset + RATE, ct + c, Permute(AddBlock(s, pt[offset..offset + RATE]), ROUNDS_B))
  {
    hide Permute, RateBytes, XorBytes, SetRate;
    var rest := pt[offset..];
    assert rest[..RATE] == pt[offset..offset + RATE] && rest[RATE..] == pt[offset + RATE..];
    var t := EncBody(Permute(SetRate(s, c), ROUNDS_B), rest[RATE..]).text;
    assert ct + (c + t) == (ct + c) + t;
  }

  lemma EncPrefixEnd(s0: State, pt: Bytes, offset: nat, ct: Bytes, s: State)
    requires |pt| - RATE < offset <= |pt| && EncPrefix(s0, pt, offset, ct, s)
    ensures var p := Pad(pt[offset..]);
            EncBody(s0, pt) == Body(ct + XorBytes(RateBytes(s), p)[..|pt| - offset], AddBlock(s, p))
  {
    hide RateBytes, XorBytes, SetRate, Pad;
  }

  method Ascon128aEncrypt(key: Bytes, nonce: Bytes, ad: Bytes, pt: Bytes) returns (ok: bool, ct: Bytes)
    ensures ok <==> |key| == 16 && |nonce| == 16
    ensures ok ==> ct == Encrypt(key, nonce, ad, pt)
    ensures !ok ==> ct == []
  {
    hide StateOf, Initial, Absorb, EncBody, Tag;
    ct := [];
    if |key| != 16 || |nonce| != 16 { return false, []; }
    var x := new Word[5](_ => Word(0));
    Initialise(x, key, nonce);
    AbsorbAssociatedData(x, ad);
    ct := EncryptBody(x, pt);
    var tag := new bv8[TAG];
    Finalise(x, key, tag);
    ct := ct + tag[..];
    ok := true;
  }

  // Decrypts every full block into pt, then the short last one.
  method DecryptBody(x: array<Word>, ct: Bytes) returns (text: Bytes)
    requires x.Length == 5
    modifies x
    ensures Body(text, StateOf(x)) == DecBody(old(StateOf(x)), ct)
  {
    hide Permute, StateOf, RateBytes, XorBytes, SetRate, LastRate;
    var pt := new bv8[|ct|];
    var offset := 0;
    ghost var s0 := StateOf(x);
    DecPrefixStart(s0, ct);
    while offset + RATE <= |ct|
      invariant 0 <= offset <= |ct|
      invariant DecPrefix(s0, ct, offset, pt[..offset], StateOf(x))
      decreases |ct| - offset
    {
      ghost var s := StateOf(x);
      ghost var done := pt[..offset];
      DecryptBlock(x, pt, offset, ct[offset..offset + RATE]);
      PermuteInPlace(x, ROUNDS_B);
      DecPrefixNext(s0, ct, offset, done, s);
      offset := offset + RATE;
    }
    ghost var s := StateOf(x);
    DecPrefixEnd(s0, ct, offset, pt[..offset], s);
    var tail := ct[offset..];
    var rate := new bv8[RATE];
    StoreRate(x, rate);
    assert rate[..|tail|] == RateBytes(s)[..|tail|];
    XorTail(pt, offset, rate, tail);
    assert rate[..] == RateBytes(s);
    ReplaceHead(rate, tail);
    LoadRate(x, rate[..]);
    text := pt[..];
  }

  // Recovers one block, and replaces the rate by the ciphertext.
  method DecryptBlock(x: array<Word>, pt: array<bv8>, offset: nat, c: Bytes)
    requires x.Length == 5 && |c| == RATE && offset + RATE <= pt.Length
    modifies x, pt
    ensures StateOf(x) == SetRate(old(StateOf(x)), c)
    ensures pt[..offset + RATE] == old(pt[..offset]) + XorBytes(RateBytes(old(StateOf(x))), c)
  {
    hide Load, Store, Xor, XorBytes, GetBit;
    var c0 := Load64be(c[..8]);
    var c1 := Load64be(c[8..]);
    Store64be(pt, offset, Xor(x[0], c0));
    assert pt[..offset + 8] == old(pt[..offset]) + Store(Xor(x[0], c0));
    Store64be(pt, offset + 8, Xor(x[1], c1));
    XoredRate(old(StateOf(x)), c);
    x[0] := c0;
    x[1] := c1;
  }

  lemma XoredRate(s: State, c: Bytes)
    requires |c| == RATE
    ensures XorBytes(RateBytes(s), c) == Store(Xor(s.x0, Load(c[..8]))) + Store(Xor(s.x1, Load(c[8..])))
  {
    hide Load, Store, Xor, XorBytes, GetBit;
    StoreXor(s.x0, Load(c[..8]));
    StoreXor(s.x1, Load(c[8..]));
    StoreLoad(c[..8]);
    StoreLoad(c[8..]);
    XorBytesConcat(Store(s.x0), Store(s.x1), c[..8], c[8..]);
    assert c[..8] + c[8..] == c;
  }

  method XorTail(pt: array<bv8>, offset: nat, rate: array<bv8>, c: Bytes)
    requires rate.Length == RATE && rate != pt && |c| < RATE && offset + |c| == pt.Length
    modifies pt
    ensures pt[..] == old(pt[..offset]) + XorBytes(rate[..|c|], c)
  {
    hide XorByte, GetBit;
    for i := 0 to |c|
      invariant pt[..offset] == old(pt[..offset])
      invariant forall j :: 0 <= j < i ==> pt[offset + j] == XorByte(rate[j], c[j])
    {
      pt[offset + i] := XorByte(rate[i], c[i]);
    }
  }

  method ReplaceHead(rate: array<bv8>, c: Bytes)
    requires rate.Length == RATE && |c| < RATE
    modifies rate
    ensures rate[..] == LastRate(old(rate[..]), c)
  {
    hide XorByte;
    ghost var r := rate[..];
    for i := 0 to |c|
      invariant forall j :: 0 <= j < i ==> rate[j] == c[j]
      invariant forall j :: i <= j < RATE ==> rate[j] == r[j]
    {
      rate[i] := c[i];
    }
    rate[|c|] := XorByte(rate[|c|], 0x80);
    assert rate[..|c|] == c;
    assert rate[|c| + 1..] == r[|c| + 1..];
    assert rate[..] == rate[..|c|] + [rate[|c|]] + rate[|c| + 1..];
  }

  ghost predicate DecPrefix(s0: State, ct: Bytes, offset: nat, pt: Bytes, s: State) {
    offset <= |ct| && Body(pt + DecBody(s, ct[offset..]).text, DecBody(s, ct[offset..]).state) == DecBody(s0, ct)
  }

  lemma DecPrefixStart(s0: State, ct: Bytes)
    ensures DecPrefix(s0, ct, 0, [], s0)
  {
    hide DecBody;
    assert ct[0..] == ct;
    assert [] + DecBody(s0, ct).text == DecBody(s0, ct).text;
  }

  lemma DecPrefixNext(s0: State, ct: Bytes, offset: nat, pt: Bytes, s: State)
    requires offset + RATE <= |ct| && DecPrefix(s0, ct, offset, pt, s)
    ensures var c := ct[offset..offset + RATE];
            DecPrefix(s0, ct, offset + RATE, pt + XorBytes(RateBytes(s), c), Permute(SetRate(s, c), ROUNDS_B))
  {
    hide Permute, RateBytes, XorBytes, SetRate;
    var c := ct[offset..offset + RATE];
    var rest := ct[offset..];
    assert rest[..RATE] == c && rest[RATE..] == ct[offset + RATE..];
    var p := XorBytes(RateBytes(s), c);
    var t := DecBody(Permute(SetRate(s, c), ROUNDS_B), rest[RATE..]).text;
    assert pt + (p + t) == (pt + p) + t;
  }

  lemma DecPrefixEnd(s0: State, ct: Bytes, offset: nat, pt: Bytes, s: State)
    requires |ct| - RATE < offset <= |ct| && DecPrefix(s0, ct, offset, pt, s)
    ensures var c := ct[offset..];
            var r := RateBytes(s);
            DecBody(s0, ct) == Body(pt + XorBytes(r[..|c|], c), SetRate(s, LastRate(r, c)))
  {
    hide RateBytes, XorBytes, SetRate, LastRate;
  }

  method Ascon128aDecrypt(key: Bytes, nonce: Bytes, ad: Bytes, ct: Bytes) returns (ok: bool, pt: Bytes)
    ensures ok <==> |key| == 16 && |nonce| == 16 && Decrypt(key, nonce, ad, ct).Some?
    ensures ok ==> Decrypt(key, nonce, ad, ct) == Some(pt)
    ensures !ok ==> pt == []
  {
    hide StateOf, Initial, Absorb, DecBody, Tag;
    if |key| != 16 || |nonce| != 16 { return false, []; }
    if |ct| < TAG { return false, []; }
    var bodyLen := |ct| - TAG;
    var x := new Word[5](_ => Word(0));
    Initialise(x, key, nonce);
    AbsorbAssociatedData(x, ad);
    var text := DecryptBody(x, ct[..bodyLen]);
    var tag := new bv8[TAG];
    Finalise(x, key, tag);
    if tag[..] != ct[bodyLen..] { return false, []; }
    return true, text;
  }
}
