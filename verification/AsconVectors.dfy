// Known answers of Ascon-128a, from the designers' test file, computed round by round.
module AsconVectors {
  import opened Wrappers
  import opened Bits
  import opened AsconPermutation
  import opened AsconWords
  import opened AsconAead

  function S(a: bv64, b: bv64, c: bv64, d: bv64, e: bv64): State { State(Word(a), Word(b), Word(c), Word(d), Word(e)) }

  // ---------- rounds on literal words ----------

  function Turned(x: Word, a: nat, b: nat): Word
    requires a <= 64 && b <= 64
  {
    Xor(Xor(x, Rotr(x, a)), Rotr(x, b))
  }

  // A round with whole rotations in place of single steps.
  function Straight(s: State, c: Word): State {
    var t := Substitute(AddConstant(s, c));
    State(Turned(t.x0, 19, 28), Turned(t.x1, 61, 39), Turned(t.x2, 1, 6), Turned(t.x3, 10, 17), Turned(t.x4, 7, 41))
  }

  lemma Straightened(s: State, c: Word)
    ensures Round(s, c) == Straight(s, c)
  {
    hide Xor, And, Not, Rotr, Rot, Substitute, AddConstant;
    var t := Substitute(AddConstant(s, c));
    RotBy19(t.x0); RotBy28(t.x0);
    RotBy61(t.x1); RotBy39(t.x1);
    RotBy1(t.x2); RotBy6(t.x2);
    RotBy10(t.x3); RotBy17(t.x3);
    RotBy7(t.x4); RotBy41(t.x4);
  }

  function Four(s: State, n: nat): State
    requires 4 <= n <= 12
  {
    var a := Straight(s, RoundConstant(12 - n));
    var b := Straight(a, RoundConstant(13 - n));
    Straight(Straight(b, RoundConstant(14 - n)), RoundConstant(15 - n))
  }

  lemma FourIs(s: State, n: nat)
    requires 4 <= n <= 12
    ensures Permute(s, n) == Permute(Four(s, n), n - 4)
  {
    hide Permute, Round, Straight, RoundConstant;
    var a := Straight(s, RoundConstant(12 - n));
    var b := Straight(a, RoundConstant(13 - n));
    var c := Straight(b, RoundConstant(14 - n));
    OneRound(s, n);
    OneRound(a, n - 1);
    OneRound(b, n - 2);
    OneRound(c, n - 3);
  }

  lemma OneRound(s: State, n: nat)
    requires 0 < n <= 12
    ensures Permute(s, n) == Permute(Straight(s, RoundConstant(12 - n)), n - 1)
  {
    hide Round, Straight;
    Straightened(s, RoundConstant(12 - n));
  }

  lemma NoRound(s: State) ensures Permute(s, 0) == s {}

  lemma Initialised0()
    ensures Four(S(0x80800c0800000000, 0x1020304050607, 0x8090a0b0c0d0e0f, 0x1020304050607, 0x8090a0b0c0d0e0f), 12) == S(0x9ed76d5f14119f04, 0xe27fb4fc63f3c897, 0xa3beb561e6454798, 0x1aa7ea67998466ea, 0x2f522d46af5f1a9f)
  {
    assert Straight(S(0x80800c0800000000, 0x1020304050607, 0x8090a0b0c0d0e0f, 0x1020304050607, 0x8090a0b0c0d0e0f), Word(0xf0)) == S(0xe98618eaa45d0f4e, 0x9281745ecb2c3357, 0x3fffffffffffff74, 0xbcd86441020000f0, 0x1c1c1c1c1c1c1c1c);
    assert Straight(S(0xe98618eaa45d0f4e, 0x9281745ecb2c3357, 0x3fffffffffffff74, 0xbcd86441020000f0, 0x1c1c1c1c1c1c1c1c), Word(0xe1)) == S(0x3c68dbf1435ac922, 0x1f4218da02fc4221, 0x3e8dcfd2b7f4f815, 0xe63fff3e248335df, 0x5b2e1a5b835b3e14);
    assert Straight(S(0x3c68dbf1435ac922, 0x1f4218da02fc4221, 0x3e8dcfd2b7f4f815, 0xe63fff3e248335df, 0x5b2e1a5b835b3e14), Word(0xd2)) == S(0x4809e46aa2f907c3, 0xe79e78645db33ce0, 0x43b4fc4f765e55a9, 0xe757cb2c79f86cf8, 0xaa894cca2b3ccb23);
    assert Straight(S(0x4809e46aa2f907c3, 0xe79e78645db33ce0, 0x43b4fc4f765e55a9, 0xe757cb2c79f86cf8, 0xaa894cca2b3ccb23), Word(0xc3)) == S(0x9ed76d5f14119f04, 0xe27fb4fc63f3c897, 0xa3beb561e6454798, 0x1aa7ea67998466ea, 0x2f522d46af5f1a9f);
  }

  lemma Initialised4()
    ensures Four(S(0x9ed76d5f14119f04, 0xe27fb4fc63f3c897, 0xa3beb561e6454798, 0x1aa7ea67998466ea, 0x2f522d46af5f1a9f), 8) == S(0x8097b034102e04b1, 0xd5e348388b25fcd6, 0xe5954c42fe2142c, 0x8ef55db8aa1ad883, 0x7ffcbe455fab43f3)
  {
    assert Straight(S(0x9ed76d5f14119f04, 0xe27fb4fc63f3c897, 0xa3beb561e6454798, 0x1aa7ea67998466ea, 0x2f522d46af5f1a9f), Word(0xb4)) == S(0x4359060077d83232, 0x63591e0a9e0c179, 0x10b43d3efb6b15d8, 0x75ee1c427cb0f224, 0x77db5838c43d27a0);
    assert Straight(S(0x4359060077d83232, 0x63591e0a9e0c179, 0x10b43d3efb6b15d8, 0x75ee1c427cb0f224, 0x77db5838c43d27a0), Word(0xa5)) == S(0x50bc94ae47bbe792, 0xd55e1030db4f4752, 0xf17526d9df705dff, 0xa8b0bf60712f2091, 0x75882bb336c0fa4);
    assert Straight(S(0x50bc94ae47bbe792, 0xd55e1030db4f4752, 0xf17526d9df705dff, 0xa8b0bf60712f2091, 0x75882bb336c0fa4), Word(0x96)) == S(0x59f7c084db78fd24, 0xa3e3b7a595b83ef7, 0x31a0de6d32a69c3b, 0xc227131f43df2553, 0x38497c14044e473b);
    assert Straight(S(0x59f7c084db78fd24, 0xa3e3b7a595b83ef7, 0x31a0de6d32a69c3b, 0xc227131f43df2553, 0x38497c14044e473b), Word(0x87)) == S(0x8097b034102e04b1, 0xd5e348388b25fcd6, 0xe5954c42fe2142c, 0x8ef55db8aa1ad883, 0x7ffcbe455fab43f3);
  }

  lemma Initialised8()
    ensures Four(S(0x8097b034102e04b1, 0xd5e348388b25fcd6, 0xe5954c42fe2142c, 0x8ef55db8aa1ad883, 0x7ffcbe455fab43f3), 4) == S(0x6e480efdd1b65260, 0x6f3c06d33047c1b2, 0x63a829beb8aad370, 0xa283eb67b0b251eb, 0xbb6313c5644a062)
  {
    assert Straight(S(0x8097b034102e04b1, 0xd5e348388b25fcd6, 0xe5954c42fe2142c, 0x8ef55db8aa1ad883, 0x7ffcbe455fab43f3), Word(0x78)) == S(0x250833bf0655f37d, 0x19a97ab593e65d1b, 0xcabed4e011effa5b, 0xcd56f36866ac81d2, 0xc2d078236d02c572);
    assert Straight(S(0x250833bf0655f37d, 0x19a97ab593e65d1b, 0xcabed4e011effa5b, 0xcd56f36866ac81d2, 0xc2d078236d02c572), Word(0x69)) == S(0x24530b08f8510cfa, 0x3220ffdeb09ac91f, 0xe1e5d41b6b5dc2fe, 0xe1cc4da36d806bbb, 0xc2c5731a9633c276);
    assert Straight(S(0x24530b08f8510cfa, 0x3220ffdeb09ac91f, 0xe1e5d41b6b5dc2fe, 0xe1cc4da36d806bbb, 0xc2c5731a9633c276), Word(0x5a)) == S(0x7822ccc8518cbb57, 0x41c6a6585a3cbb2d, 0x399efaab67d6e3d0, 0x368149b63502bb77, 0x35fa7fd3eee46b53);
    assert Straight(S(0x7822ccc8518cbb57, 0x41c6a6585a3cbb2d, 0x399efaab67d6e3d0, 0x368149b63502bb77, 0x35fa7fd3eee46b53), Word(0x4b)) == S(0x6e480efdd1b65260, 0x6f3c06d33047c1b2, 0x63a829beb8aad370, 0xa283eb67b0b251eb, 0xbb6313c5644a062);
  }

  lemma Initialised()
    ensures Permute(S(0x80800c0800000000, 0x1020304050607, 0x8090a0b0c0d0e0f, 0x1020304050607, 0x8090a0b0c0d0e0f), 12) == S(0x6e480efdd1b65260, 0x6f3c06d33047c1b2, 0x63a829beb8aad370, 0xa283eb67b0b251eb, 0xbb6313c5644a062)
  {
    hide Permute, Four;
    Initialised0();
    FourIs(S(0x80800c0800000000, 0x1020304050607, 0x8090a0b0c0d0e0f, 0x1020304050607, 0x8090a0b0c0d0e0f), 12);
    Initialised4();
    FourIs(S(0x9ed76d5f14119f04, 0xe27fb4fc63f3c897, 0xa3beb561e6454798, 0x1aa7ea67998466ea, 0x2f522d46af5f1a9f), 8);
    Initialised8();
    FourIs(S(0x8097b034102e04b1, 0xd5e348388b25fcd6, 0xe5954c42fe2142c, 0x8ef55db8aa1ad883, 0x7ffcbe455fab43f3), 4);
    NoRound(S(0x6e480efdd1b65260, 0x6f3c06d33047c1b2, 0x63a829beb8aad370, 0xa283eb67b0b251eb, 0xbb6313c5644a062));
  }

  lemma FinishedEmpty0()
    ensures Four(S(0xee480efdd1b65260, 0x6f3c06d33047c1b2, 0x63a92bbdbcafd577, 0xaa8be36fb8ba59e3, 0x3bf3b375a49ae6c), 12) == S(0x49aa67f2fcca0f93, 0x5cca87267aac966d, 0xca29907c87f837f6, 0x25a4d84cc4bdc851, 0x1c3be29f7b4298b8)
  {
    assert Straight(S(0xee480efdd1b65260, 0x6f3c06d33047c1b2, 0x63a92bbdbcafd577, 0xaa8be36fb8ba59e3, 0x3bf3b375a49ae6c), Word(0xf0)) == S(0x9fcdad22e9dd8e7d, 0x4a481d54cd51e200, 0x90b8d4ebad383212, 0xe4bc781b62099bad, 0xf483da065f838fbc);
    assert Straight(S(0x9fcdad22e9dd8e7d, 0x4a481d54cd51e200, 0x90b8d4ebad383212, 0xe4bc781b62099bad, 0xf483da065f838fbc), Word(0xe1)) == S(0x78fb12847d546752, 0x8edc03f1ed334cff, 0x5f5edcb7d1166e3e, 0xc1d907de8ed16dc6, 0x14a590e2e6eafe28);
    assert Straight(S(0x78fb12847d546752, 0x8edc03f1ed334cff, 0x5f5edcb7d1166e3e, 0xc1d907de8ed16dc6, 0x14a590e2e6eafe28), Word(0xd2)) == S(0x1f24248f34955039, 0x3edb063245f3daf6, 0x379c0e171487a919, 0x3dc0c196dbb7a3f5, 0xd7d572ebe3895c8e);
    assert Straight(S(0x1f24248f34955039, 0x3edb063245f3daf6, 0x379c0e171487a919, 0x3dc0c196dbb7a3f5, 0xd7d572ebe3895c8e), Word(0xc3)) == S(0x49aa67f2fcca0f93, 0x5cca87267aac966d, 0xca29907c87f837f6, 0x25a4d84cc4bdc851, 0x1c3be29f7b4298b8);
  }

  lemma FinishedEmpty4()
    ensures Four(S(0x49aa67f2fcca0f93, 0x5cca87267aac966d, 0xca29907c87f837f6, 0x25a4d84cc4bdc851, 0x1c3be29f7b4298b8), 8) == S(0x45fc14378ce995dc, 0xa1623c101ac6213d, 0x6417f9b6d7faf1d, 0x183d239b845ed197, 0x90d6d3b5509307ee)
  {
    assert Straight(S(0x49aa67f2fcca0f93, 0x5cca87267aac966d, 0xca29907c87f837f6, 0x25a4d84cc4bdc851, 0x1c3be29f7b4298b8), Word(0xb4)) == S(0xca8b596616e5a068, 0xd779b07c9762d505, 0xa8403005fdfa4c7d, 0xa50dc81d1cbfd57e, 0x3557f0832cc0c90);
    assert Straight(S(0xca8b596616e5a068, 0xd779b07c9762d505, 0xa8403005fdfa4c7d, 0xa50dc81d1cbfd57e, 0x3557f0832cc0c90), Word(0xa5)) == S(0x4c3ca7eb0bdd6454, 0x2c22c6c3bf38da86, 0x49d735e7f6684449, 0x2d1fcf60a87d51dc, 0xe5c74d8fc393d769);
    assert Straight(S(0x4c3ca7eb0bdd6454, 0x2c22c6c3bf38da86, 0x49d735e7f6684449, 0x2d1fcf60a87d51dc, 0xe5c74d8fc393d769), Word(0x96)) == S(0x66dbac8050103104, 0x2b18a987e25a4373, 0xeac4224fdc6fa3da, 0x3e75421aba024225, 0x956f58079f811fe8);
    assert Straight(S(0x66dbac8050103104, 0x2b18a987e25a4373, 0xeac4224fdc6fa3da, 0x3e75421aba024225, 0x956f58079f811fe8), Word(0x87)) == S(0x45fc14378ce995dc, 0xa1623c101ac6213d, 0x6417f9b6d7faf1d, 0x183d239b845ed197, 0x90d6d3b5509307ee);
  }

  lemma FinishedEmpty8()
    ensures Four(S(0x45fc14378ce995dc, 0xa1623c101ac6213d, 0x6417f9b6d7faf1d, 0x183d239b845ed197, 0x90d6d3b5509307ee), 4) == S(0x241b2929607a8b53, 0x73ea75135cd82f08, 0x7f819df01b887bff, 0x7a824c6c0d240f50, 0xe721af68f120e77)
  {
    assert Straight(S(0x45fc14378ce995dc, 0xa1623c101ac6213d, 0x6417f9b6d7faf1d, 0x183d239b845ed197, 0x90d6d3b5509307ee), Word(0x78)) == S(0xd64e3320de88c591, 0x2abede99ad0ca1bb, 0xb7123c9f7c7d1f7, 0x2f54b5f71da4d919, 0x5e91bb5511b1317e);
    assert Straight(S(0xd64e3320de88c591, 0x2abede99ad0ca1bb, 0xb7123c9f7c7d1f7, 0x2f54b5f71da4d919, 0x5e91bb5511b1317e), Word(0x69)) == S(0xad7cb39d6877aa5a, 0xd2d86a4a0a1c8ee3, 0x3bd348dac923eedc, 0xec5c29c2598eca5e, 0xa8549a6ec3e03809);
    assert Straight(S(0xad7cb39d6877aa5a, 0xd2d86a4a0a1c8ee3, 0x3bd348dac923eedc, 0xec5c29c2598eca5e, 0xa8549a6ec3e03809), Word(0x5a)) == S(0xf647059224f77ec5, 0xf96d48dde49a0d4d, 0xf1d5b9df6f0a7ae8, 0xc7eb8ef2ba9856bc, 0xabb87338a8995f72);
    assert Straight(S(0xf647059224f77ec5, 0xf96d48dde49a0d4d, 0xf1d5b9df6f0a7ae8, 0xc7eb8ef2ba9856bc, 0xabb87338a8995f72), Word(0x4b)) == S(0x241b2929607a8b53, 0x73ea75135cd82f08, 0x7f819df01b887bff, 0x7a824c6c0d240f50, 0xe721af68f120e77);
  }

  lemma FinishedEmpty()
    ensures Permute(S(0xee480efdd1b65260, 0x6f3c06d33047c1b2, 0x63a92bbdbcafd577, 0xaa8be36fb8ba59e3, 0x3bf3b375a49ae6c), 12) == S(0x241b2929607a8b53, 0x73ea75135cd82f08, 0x7f819df01b887bff, 0x7a824c6c0d240f50, 0xe721af68f120e77)
  {
    hide Permute, Four;
    FinishedEmpty0();
    FourIs(S(0xee480efdd1b65260, 0x6f3c06d33047c1b2, 0x63a92bbdbcafd577, 0xaa8be36fb8ba59e3, 0x3bf3b375a49ae6c), 12);
    FinishedEmpty4();
    FourIs(S(0x49aa67f2fcca0f93, 0x5cca87267aac966d, 0xca29907c87f837f6, 0x25a4d84cc4bdc851, 0x1c3be29f7b4298b8), 8);
    FinishedEmpty8();
    FourIs(S(0x45fc14378ce995dc, 0xa1623c101ac6213d, 0x6417f9b6d7faf1d, 0x183d239b845ed197, 0x90d6d3b5509307ee), 4);
    NoRound(S(0x241b2929607a8b53, 0x73ea75135cd82f08, 0x7f819df01b887bff, 0x7a824c6c0d240f50, 0xe721af68f120e77));
  }

  lemma AbsorbedFirst0()
    ensures Four(S(0x6e490cfed5b35467, 0x67350cd83c4acfbd, 0x63a829beb8aad370, 0xa282e964b4b757ec, 0x3bf3b375a49ae6d), 8) == S(0xeb656c3c8da81d8e, 0x9bc050a9b835a669, 0x109f329caac7adff, 0xe621390b45267b52, 0x156ab3591349155f)
  {
    assert Straight(S(0x6e490cfed5b35467, 0x67350cd83c4acfbd, 0x63a829beb8aad370, 0xa282e964b4b757ec, 0x3bf3b375a49ae6d), Word(0xb4)) == S(0x56cc72886c1d4687, 0x84014d43fc6cc64a, 0x189953ed0139b36a, 0x7c957657e08d9be9, 0xeb95dc8943129fa1);
    assert Straight(S(0x56cc72886c1d4687, 0x84014d43fc6cc64a, 0x189953ed0139b36a, 0x7c957657e08d9be9, 0xeb95dc8943129fa1), Word(0xa5)) == S(0xd18b9b5a5b12b20a, 0x304ce90847ac0ba8, 0x7bd54092e5622b7e, 0x806314e37cf688a3, 0x581715ca4b537c71);
    assert Straight(S(0xd18b9b5a5b12b20a, 0x304ce90847ac0ba8, 0x7bd54092e5622b7e, 0x806314e37cf688a3, 0x581715ca4b537c71), Word(0x96)) == S(0x69f57df65e508154, 0x346fd6ec97804255, 0xa5fab58644503cb7, 0xdf8fe25e7c7e6653, 0x5d5c0c1b9b9dfc88);
    assert Straight(S(0x69f57df65e508154, 0x346fd6ec97804255, 0xa5fab58644503cb7, 0xdf8fe25e7c7e6653, 0x5d5c0c1b9b9dfc88), Word(0x87)) == S(0xeb656c3c8da81d8e, 0x9bc050a9b835a669, 0x109f329caac7adff, 0xe621390b45267b52, 0x156ab3591349155f);
  }

  lemma AbsorbedFirst4()
    ensures Four(S(0xeb656c3c8da81d8e, 0x9bc050a9b835a669, 0x109f329caac7adff, 0xe621390b45267b52, 0x156ab3591349155f), 4) == S(0x40e86dc599ee094b, 0x780045485f506b1, 0xbe22a3c5cbbbe011, 0x13898239be608a1b, 0x9f8f7e20b5622fb3)
  {
    assert Straight(S(0xeb656c3c8da81d8e, 0x9bc050a9b835a669, 0x109f329caac7adff, 0xe621390b45267b52, 0x156ab3591349155f), Word(0x78)) == S(0xb039a1184d1ace87, 0xaab737ef35878f37, 0x2688b829eb1b9bd2, 0xd25c387099cbd5b2, 0xd455a02bd06e7a70);
    assert Straight(S(0xb039a1184d1ace87, 0xaab737ef35878f37, 0x2688b829eb1b9bd2, 0xd25c387099cbd5b2, 0xd455a02bd06e7a70), Word(0x69)) == S(0x484991e5355cfd37, 0x84c8a85b8bde9eb3, 0x1fe0feb98613eae, 0x156d2a132f09fa24, 0x4237089826b2a4dc);
    assert Straight(S(0x484991e5355cfd37, 0x84c8a85b8bde9eb3, 0x1fe0feb98613eae, 0x156d2a132f09fa24, 0x4237089826b2a4dc), Word(0x5a)) == S(0x6af0733b58c7f443, 0x6ac8e9d2fda3c6a5, 0xa45599c70538bfbd, 0x1b87e22cb3a4588f, 0x46bd6360e6c16258);
    assert Straight(S(0x6af0733b58c7f443, 0x6ac8e9d2fda3c6a5, 0xa45599c70538bfbd, 0x1b87e22cb3a4588f, 0x46bd6360e6c16258), Word(0x4b)) == S(0x40e86dc599ee094b, 0x780045485f506b1, 0xbe22a3c5cbbbe011, 0x13898239be608a1b, 0x9f8f7e20b5622fb3);
  }

  lemma AbsorbedFirst()
    ensures Permute(S(0x6e490cfed5b35467, 0x67350cd83c4acfbd, 0x63a829beb8aad370, 0xa282e964b4b757ec, 0x3bf3b375a49ae6d), 8) == S(0x40e86dc599ee094b, 0x780045485f506b1, 0xbe22a3c5cbbbe011, 0x13898239be608a1b, 0x9f8f7e20b5622fb3)
  {
    hide Permute, Four;
    AbsorbedFirst0();
    FourIs(S(0x6e490cfed5b35467, 0x67350cd83c4acfbd, 0x63a829beb8aad370, 0xa282e964b4b757ec, 0x3bf3b375a49ae6d), 8);
    AbsorbedFirst4();
    FourIs(S(0xeb656c3c8da81d8e, 0x9bc050a9b835a669, 0x109f329caac7adff, 0xe621390b45267b52, 0x156ab3591349155f), 4);
    NoRound(S(0x40e86dc599ee094b, 0x780045485f506b1, 0xbe22a3c5cbbbe011, 0x13898239be608a1b, 0x9f8f7e20b5622fb3));
  }

  lemma AbsorbedLast0()
    ensures Four(S(0x50686dc599ee094b, 0x780045485f506b1, 0xbe22a3c5cbbbe011, 0x13898239be608a1b, 0x9f8f7e20b5622fb3), 8) == S(0x7da32c3f73dfb833, 0x45eb2464af9257f9, 0x9a8e4f830b9022b1, 0xa862f8d7f4175046, 0x2b1e97b2b6f5cf1c)
  {
    assert Straight(S(0x50686dc599ee094b, 0x780045485f506b1, 0xbe22a3c5cbbbe011, 0x13898239be608a1b, 0x9f8f7e20b5622fb3), Word(0xb4)) == S(0x98ffc24a39cc5815, 0xd08fb34a4529131d, 0x5fdac852286e9f, 0xbfea9bbc6bb3493d, 0xdbdbcc2b4da1419e);
    assert Straight(S(0x98ffc24a39cc5815, 0xd08fb34a4529131d, 0x5fdac852286e9f, 0xbfea9bbc6bb3493d, 0xdbdbcc2b4da1419e), Word(0xa5)) == S(0x4fda876ee99af0f5, 0x74cdb7e04d3cf106, 0x311d40086132397e, 0xdaeca3a560bb8636, 0xd5c01a5546a673d1);
    assert Straight(S(0x4fda876ee99af0f5, 0x74cdb7e04d3cf106, 0x311d40086132397e, 0xdaeca3a560bb8636, 0xd5c01a5546a673d1), Word(0x96)) == S(0x3169a808fd71333, 0x77b55a9b23c34cdc, 0xa2442425205830a3, 0xd2e04693e22ab89e, 0x390d46c4f4644a23);
    assert Straight(S(0x3169a808fd71333, 0x77b55a9b23c34cdc, 0xa2442425205830a3, 0xd2e04693e22ab89e, 0x390d46c4f4644a23), Word(0x87)) == S(0x7da32c3f73dfb833, 0x45eb2464af9257f9, 0x9a8e4f830b9022b1, 0xa862f8d7f4175046, 0x2b1e97b2b6f5cf1c);
  }

  lemma AbsorbedLast4()
    ensures Four(S(0x7da32c3f73dfb833, 0x45eb2464af9257f9, 0x9a8e4f830b9022b1, 0xa862f8d7f4175046, 0x2b1e97b2b6f5cf1c), 4) == S(0xbc27a272cc6b10aa, 0x2d16d8a6813c37fb, 0xb6bc02a385d8171c, 0x29e851463b7944de, 0x602afaf1bc8a68af)
  {
    assert Straight(S(0x7da32c3f73dfb833, 0x45eb2464af9257f9, 0x9a8e4f830b9022b1, 0xa862f8d7f4175046, 0x2b1e97b2b6f5cf1c), Word(0x78)) == S(0x821fb88fb6400db4, 0x17a73daace97a49d, 0xeecbc0e894f7f32b, 0x5777b254f3845ec7, 0x158e2e9ca7e36580);
    assert Straight(S(0x821fb88fb6400db4, 0x17a73daace97a49d, 0xeecbc0e894f7f32b, 0x5777b254f3845ec7, 0x158e2e9ca7e36580), Word(0x69)) == S(0x9699af1097b8c4f7, 0xc7db87a9ce88f263, 0x850ee517a7853f94, 0x8589b8946faabff1, 0x6e1733d5bc66376b);
    assert Straight(S(0x9699af1097b8c4f7, 0xc7db87a9ce88f263, 0x850ee517a7853f94, 0x8589b8946faabff1, 0x6e1733d5bc66376b), Word(0x5a)) == S(0x2bef38a3f7d77eea, 0x9d131ad0920c7cf8, 0xdffe237805f7f3bd, 0x694cc1f9a3e9626a, 0x2b9df13db915762c);
    assert Straight(S(0x2bef38a3f7d77eea, 0x9d131ad0920c7cf8, 0xdffe237805f7f3bd, 0x694cc1f9a3e9626a, 0x2b9df13db915762c), Word(0x4b)) == S(0xbc27a272cc6b10aa, 0x2d16d8a6813c37fb, 0xb6bc02a385d8171c, 0x29e851463b7944de, 0x602afaf1bc8a68af);
  }

  lemma AbsorbedLast()
    ensures Permute(S(0x50686dc599ee094b, 0x780045485f506b1, 0xbe22a3c5cbbbe011, 0x13898239be608a1b, 0x9f8f7e20b5622fb3), 8) == S(0xbc27a272cc6b10aa, 0x2d16d8a6813c37fb, 0xb6bc02a385d8171c, 0x29e851463b7944de, 0x602afaf1bc8a68af)
  {
    hide Permute, Four;
    AbsorbedLast0();
    FourIs(S(0x50686dc599ee094b, 0x780045485f506b1, 0xbe22a3c5cbbbe011, 0x13898239be608a1b, 0x9f8f7e20b5622fb3), 8);
    AbsorbedLast4();
    FourIs(S(0x7da32c3f73dfb833, 0x45eb2464af9257f9, 0x9a8e4f830b9022b1, 0xa862f8d7f4175046, 0x2b1e97b2b6f5cf1c), 4);
    NoRound(S(0xbc27a272cc6b10aa, 0x2d16d8a6813c37fb, 0xb6bc02a385d8171c, 0x29e851463b7944de, 0x602afaf1bc8a68af));
  }

  lemma EncryptedFirst0()
    ensures Four(S(0xbc26a071c86e16ad, 0x251fd2ad8d3139f4, 0xb6bc02a385d8171c, 0x29e851463b7944de, 0x602afaf1bc8a68ae), 8) == S(0x61ae57eceff6d44f, 0xf4772f22f3eb8ec5, 0x31a2548a64ff43ae, 0x7dae1750982cdbe7, 0xce4e71c94466ada5)
  {
    assert Straight(S(0xbc26a071c86e16ad, 0x251fd2ad8d3139f4, 0xb6bc02a385d8171c, 0x29e851463b7944de, 0x602afaf1bc8a68ae), Word(0xb4)) == S(0x4029cd25b33a4b51, 0x83b3d81360e2fd85, 0xb6c0bdf54b90d6a4, 0x4e4e5d85849b36ae, 0xad07f8dbf8cb814a);
    assert Straight(S(0x4029cd25b33a4b51, 0x83b3d81360e2fd85, 0xb6c0bdf54b90d6a4, 0x4e4e5d85849b36ae, 0xad07f8dbf8cb814a), Word(0xa5)) == S(0x9acdbde0587c3dbc, 0x8716440ee8fa8fb4, 0x33e5938b7418caf2, 0xa057e536b6313c40, 0x8fb5f4c4d29acb52);
    assert Straight(S(0x9acdbde0587c3dbc, 0x8716440ee8fa8fb4, 0x33e5938b7418caf2, 0xa057e536b6313c40, 0x8fb5f4c4d29acb52), Word(0x96)) == S(0x843cd49aa4620e3f, 0x847e5051c1201eb2, 0x13e89405dad29847, 0x4da9a8e348de4d0e, 0x54bd842cf5ec6bf4);
    assert Straight(S(0x843cd49aa4620e3f, 0x847e5051c1201eb2, 0x13e89405dad29847, 0x4da9a8e348de4d0e, 0x54bd842cf5ec6bf4), Word(0x87)) == S(0x61ae57eceff6d44f, 0xf4772f22f3eb8ec5, 0x31a2548a64ff43ae, 0x7dae1750982cdbe7, 0xce4e71c94466ada5);
  }

  lemma EncryptedFirst4()
    ensures Four(S(0x61ae57eceff6d44f, 0xf4772f22f3eb8ec5, 0x31a2548a64ff43ae, 0x7dae1750982cdbe7, 0xce4e71c94466ada5), 4) == S(0x2bfcddcbdfb9d3df, 0xfaeca5478543ecaf, 0x762b30c79f624b60, 0xe85039f4849ce216, 0xe8fc281a66df323)
  {
    assert Straight(S(0x61ae57eceff6d44f, 0xf4772f22f3eb8ec5, 0x31a2548a64ff43ae, 0x7dae1750982cdbe7, 0xce4e71c94466ada5), Word(0x78)) == S(0xcedc7b7019f29fa9, 0xcd7f3c6c44bef8a9, 0x56be3d22424f39c1, 0xfc98998bfb9ab5a7, 0xa1f691bc98c84810);
    assert Straight(S(0xcedc7b7019f29fa9, 0xcd7f3c6c44bef8a9, 0x56be3d22424f39c1, 0xfc98998bfb9ab5a7, 0xa1f691bc98c84810), Word(0x69)) == S(0x4a20132193494a01, 0x34daa80fa51e559e, 0xee61e23d120c7442, 0x74f157f84e40c0f0, 0xb9128145d277e592);
    assert Straight(S(0x4a20132193494a01, 0x34daa80fa51e559e, 0xee61e23d120c7442, 0x74f157f84e40c0f0, 0xb9128145d277e592), Word(0x5a)) == S(0x7ff83f3a6d5759ba, 0x42bec13ab733db4f, 0x94d437fb97d4ed2b, 0xb6f41040560c180, 0x4fa5b2f1e3238e7b);
    assert Straight(S(0x7ff83f3a6d5759ba, 0x42bec13ab733db4f, 0x94d437fb97d4ed2b, 0xb6f41040560c180, 0x4fa5b2f1e3238e7b), Word(0x4b)) == S(0x2bfcddcbdfb9d3df, 0xfaeca5478543ecaf, 0x762b30c79f624b60, 0xe85039f4849ce216, 0xe8fc281a66df323);
  }

  lemma EncryptedFirst()
    ensures Permute(S(0xbc26a071c86e16ad, 0x251fd2ad8d3139f4, 0xb6bc02a385d8171c, 0x29e851463b7944de, 0x602afaf1bc8a68ae), 8) == S(0x2bfcddcbdfb9d3df, 0xfaeca5478543ecaf, 0x762b30c79f624b60, 0xe85039f4849ce216, 0xe8fc281a66df323)
  {
    hide Permute, Four;
    EncryptedFirst0();
    FourIs(S(0xbc26a071c86e16ad, 0x251fd2ad8d3139f4, 0xb6bc02a385d8171c, 0x29e851463b7944de, 0x602afaf1bc8a68ae), 8);
    EncryptedFirst4();
    FourIs(S(0x61ae57eceff6d44f, 0xf4772f22f3eb8ec5, 0x31a2548a64ff43ae, 0x7dae1750982cdbe7, 0xce4e71c94466ada5), 4);
    NoRound(S(0x2bfcddcbdfb9d3df, 0xfaeca5478543ecaf, 0x762b30c79f624b60, 0xe85039f4849ce216, 0xe8fc281a66df323));
  }

  lemma Finished0()
    ensures Four(S(0x3b7cddcbdfb9d3df, 0xfaeca5478543ecaf, 0x762a32c49b674d67, 0xe05933ff8891ec19, 0xe8fc281a66df323), 12) == S(0x5d320f50b06733b5, 0xb5168be81e4d0b58, 0x1576ab8fb9627e3f, 0x6ed313cbfb4dab0, 0xad33577096746538)
  {
    assert Straight(S(0x3b7cddcbdfb9d3df, 0xfaeca5478543ecaf, 0x762a32c49b674d67, 0xe05933ff8891ec19, 0xe8fc281a66df323), Word(0xf0)) == S(0x7b8ed345f02c00e8, 0x11ec8a78d2608246, 0x569682e357723620, 0x7d871dfa4bdf7874, 0xeb469a30c13841b7);
    assert Straight(S(0x7b8ed345f02c00e8, 0x11ec8a78d2608246, 0x569682e357723620, 0x7d871dfa4bdf7874, 0xeb469a30c13841b7), Word(0xe1)) == S(0xb0e005c786f382ca, 0xdf7436e418092702, 0x4b4cda031440daad, 0x252dae7945484df1, 0xf1ee8c142ddd4636);
    assert Straight(S(0xb0e005c786f382ca, 0xdf7436e418092702, 0x4b4cda031440daad, 0x252dae7945484df1, 0xf1ee8c142ddd4636), Word(0xd2)) == S(0x329e90afc61c5726, 0x1d20123d42200df4, 0xf46b8edec5de0cc4, 0xf71acd97c502a870, 0xe49a387588c0591e);
    assert Straight(S(0x329e90afc61c5726, 0x1d20123d42200df4, 0xf46b8edec5de0cc4, 0xf71acd97c502a870, 0xe49a387588c0591e), Word(0xc3)) == S(0x5d320f50b06733b5, 0xb5168be81e4d0b58, 0x1576ab8fb9627e3f, 0x6ed313cbfb4dab0, 0xad33577096746538);
  }

  lemma Finished4()
    ensures Four(S(0x5d320f50b06733b5, 0xb5168be81e4d0b58, 0x1576ab8fb9627e3f, 0x6ed313cbfb4dab0, 0xad33577096746538), 8) == S(0x925cd51f0e18d14, 0x771ff572311ffcc3, 0x1e39927cee042832, 0x153f18b6133fc3b2, 0xd478e177a90155bb)
  {
    assert Straight(S(0x5d320f50b06733b5, 0xb5168be81e4d0b58, 0x1576ab8fb9627e3f, 0x6ed313cbfb4dab0, 0xad33577096746538), Word(0xb4)) == S(0x87ea1b136f90383a, 0xf32e2d2d620e4d01, 0x1e11635315baba0a, 0xa13e8767f792f738, 0xdd8db21455b8cbc7);
    assert Straight(S(0x87ea1b136f90383a, 0xf32e2d2d620e4d01, 0x1e11635315baba0a, 0xa13e8767f792f738, 0xdd8db21455b8cbc7), Word(0xa5)) == S(0xdebf51bfca2808f6, 0x7c0154af247eded9, 0x3058475f0a730cdf, 0xa3284973e3ee04e4, 0x8ff151212a06b506);
    assert Straight(S(0xdebf51bfca2808f6, 0x7c0154af247eded9, 0x3058475f0a730cdf, 0xa3284973e3ee04e4, 0x8ff151212a06b506), Word(0x96)) == S(0xc179c431f284113b, 0x3b9082bce934331f, 0xd631ddf80a6c182a, 0xdeb9bace431be0ce, 0xef3f2092dfa3ee2a);
    assert Straight(S(0xc179c431f284113b, 0x3b9082bce934331f, 0xd631ddf80a6c182a, 0xdeb9bace431be0ce, 0xef3f2092dfa3ee2a), Word(0x87)) == S(0x925cd51f0e18d14, 0x771ff572311ffcc3, 0x1e39927cee042832, 0x153f18b6133fc3b2, 0xd478e177a90155bb);
  }

  lemma Finished8()
    ensures Four(S(0x925cd51f0e18d14, 0x771ff572311ffcc3, 0x1e39927cee042832, 0x153f18b6133fc3b2, 0xd478e177a90155bb), 4) == S(0x1128895b86e91528, 0xf798e99b0d319d0, 0x1788551d15422c44, 0x1d70c20a4a2e7112, 0xe4bb314d79cf2bd)
  {
    assert Straight(S(0x925cd51f0e18d14, 0x771ff572311ffcc3, 0x1e39927cee042832, 0x153f18b6133fc3b2, 0xd478e177a90155bb), Word(0x78)) == S(0xc7736e9f6e9660e6, 0xd4e86ae33d6eea64, 0x8fa08e0eb5b03d, 0x60a3da995f42a074, 0x384eb2199de453b9);
    assert Straight(S(0xc7736e9f6e9660e6, 0xd4e86ae33d6eea64, 0x8fa08e0eb5b03d, 0x60a3da995f42a074, 0x384eb2199de453b9), Word(0x69)) == S(0x7092c8a3acf519f8, 0xa2c20be75af0865a, 0x32f14f0d23f28ebc, 0xa8b5c717b3a39c03, 0xf27a4569fb9b793f);
    assert Straight(S(0x7092c8a3acf519f8, 0xa2c20be75af0865a, 0x32f14f0d23f28ebc, 0xa8b5c717b3a39c03, 0xf27a4569fb9b793f), Word(0x5a)) == S(0x53c00e53eb3b40c, 0xbd393241abe79568, 0x5fb3fc2edeaccb19, 0x4076404057904042, 0x1f984f6a64145522);
    assert Straight(S(0x53c00e53eb3b40c, 0xbd393241abe79568, 0x5fb3fc2edeaccb19, 0x4076404057904042, 0x1f984f6a64145522), Word(0x4b)) == S(0x1128895b86e91528, 0xf798e99b0d319d0, 0x1788551d15422c44, 0x1d70c20a4a2e7112, 0xe4bb314d79cf2bd);
  }

  lemma Finished()
    ensures Permute(S(0x3b7cddcbdfb9d3df, 0xfaeca5478543ecaf, 0x762a32c49b674d67, 0xe05933ff8891ec19, 0xe8fc281a66df323), 12) == S(0x1128895b86e91528, 0xf798e99b0d319d0, 0x1788551d15422c44, 0x1d70c20a4a2e7112, 0xe4bb314d79cf2bd)
  {
    hide Permute, Four;
    Finished0();
    FourIs(S(0x3b7cddcbdfb9d3df, 0xfaeca5478543ecaf, 0x762a32c49b674d67, 0xe05933ff8891ec19, 0xe8fc281a66df323), 12);
    Finished4();
    FourIs(S(0x5d320f50b06733b5, 0xb5168be81e4d0b58, 0x1576ab8fb9627e3f, 0x6ed313cbfb4dab0, 0xad33577096746538), 8);
    Finished8();
    FourIs(S(0x925cd51f0e18d14, 0x771ff572311ffcc3, 0x1e39927cee042832, 0x153f18b6133fc3b2, 0xd478e177a90155bb), 4);
    NoRound(S(0x1128895b86e91528, 0xf798e99b0d319d0, 0x1788551d15422c44, 0x1d70c20a4a2e7112, 0xe4bb314d79cf2bd));
  }

  lemma AbsorbedPadding0()
    ensures Four(S(0xc0e86dc599ee094b, 0x780045485f506b1, 0xbe22a3c5cbbbe011, 0x13898239be608a1b, 0x9f8f7e20b5622fb3), 8) == S(0xa32dd0a17702c093, 0xfc0364c3801e5f0, 0x38faf1be49bdaa24, 0x9a21682eb204640b, 0x458e65c473407e6c)
  {
    assert Straight(S(0xc0e86dc599ee094b, 0x780045485f506b1, 0xbe22a3c5cbbbe011, 0x13898239be608a1b, 0x9f8f7e20b5622fb3), Word(0xb4)) == S(0x8ffd04339cc5815, 0xc40fb34a44081319, 0x5fdac852286e9f, 0xaf6eb3fc6bb3493d, 0xdb5acc2b4da1019e);
    assert Straight(S(0x8ffd04339cc5815, 0xc40fb34a44081319, 0x5fdac852286e9f, 0xaf6eb3fc6bb3493d, 0xdb5acc2b4da1019e), Word(0xa5)) == S(0x49df2dee0de054c5, 0x66e077614d1ebb26, 0x27cec82860873d78, 0xcf4be1e7779ecee2, 0x7c4da849d5e67148);
    assert Straight(S(0x49df2dee0de054c5, 0x66e077614d1ebb26, 0x27cec82860873d78, 0xcf4be1e7779ecee2, 0x7c4da849d5e67148), Word(0x96)) == S(0xdb13c222468c4b24, 0xec1bd68b58d93a3b, 0xb784b9c3824d7500, 0x4f8cb3abc2d22049, 0x17d7478bbe5656de);
    assert Straight(S(0xdb13c222468c4b24, 0xec1bd68b58d93a3b, 0xb784b9c3824d7500, 0x4f8cb3abc2d22049, 0x17d7478bbe5656de), Word(0x87)) == S(0xa32dd0a17702c093, 0xfc0364c3801e5f0, 0x38faf1be49bdaa24, 0x9a21682eb204640b, 0x458e65c473407e6c);
  }

  lemma AbsorbedPadding4()
    ensures Four(S(0xa32dd0a17702c093, 0xfc0364c3801e5f0, 0x38faf1be49bdaa24, 0x9a21682eb204640b, 0x458e65c473407e6c), 4) == S(0x524898cacc4625a3, 0xa62de0e7c348cf38, 0xb3ae6fa370070ab6, 0x79117d25a03fe7d0, 0xecf2f37f4310a7fe)
  {
    assert Straight(S(0xa32dd0a17702c093, 0xfc0364c3801e5f0, 0x38faf1be49bdaa24, 0x9a21682eb204640b, 0x458e65c473407e6c), Word(0x78)) == S(0xb63a027b74baeb58, 0xf464c0ca00a649d7, 0x95db8fdc1fbe7184, 0xd4cadb158d97e883, 0xe83e73508f5ca656);
    assert Straight(S(0xb63a027b74baeb58, 0xf464c0ca00a649d7, 0x95db8fdc1fbe7184, 0xd4cadb158d97e883, 0xe83e73508f5ca656), Word(0x69)) == S(0x63c3cf7bc57044a, 0x2aabe6bfa25f21ac, 0x2b970abfb4729e5f, 0xcd45dab0c10d1be3, 0xd72c65730a80928c);
    assert Straight(S(0x63c3cf7bc57044a, 0x2aabe6bfa25f21ac, 0x2b970abfb4729e5f, 0xcd45dab0c10d1be3, 0xd72c65730a80928c), Word(0x5a)) == S(0x23fc5c6aac19aa68, 0x9618d9879e84bd2b, 0xf12d01386176eb76, 0xb7a58c03bdf3bab3, 0x42c65f1f198ac21b);
    assert Straight(S(0x23fc5c6aac19aa68, 0x9618d9879e84bd2b, 0xf12d01386176eb76, 0xb7a58c03bdf3bab3, 0x42c65f1f198ac21b), Word(0x4b)) == S(0x524898cacc4625a3, 0xa62de0e7c348cf38, 0xb3ae6fa370070ab6, 0x79117d25a03fe7d0, 0xecf2f37f4310a7fe);
  }

  lemma AbsorbedPadding()
    ensures Permute(S(0xc0e86dc599ee094b, 0x780045485f506b1, 0xbe22a3c5cbbbe011, 0x13898239be608a1b, 0x9f8f7e20b5622fb3), 8) == S(0x524898cacc4625a3, 0xa62de0e7c348cf38, 0xb3ae6fa370070ab6, 0x79117d25a03fe7d0, 0xecf2f37f4310a7fe)
  {
    hide Permute, Four;
    AbsorbedPadding0();
    FourIs(S(0xc0e86dc599ee094b, 0x780045485f506b1, 0xbe22a3c5cbbbe011, 0x13898239be608a1b, 0x9f8f7e20b5622fb3), 8);
    AbsorbedPadding4();
    FourIs(S(0xa32dd0a17702c093, 0xfc0364c3801e5f0, 0x38faf1be49bdaa24, 0x9a21682eb204640b, 0x458e65c473407e6c), 4);
    NoRound(S(0x524898cacc4625a3, 0xa62de0e7c348cf38, 0xb3ae6fa370070ab6, 0x79117d25a03fe7d0, 0xecf2f37f4310a7fe));
  }

  lemma EncryptedWhole0()
    ensures Four(S(0x52499ac9c84323a4, 0xae24eaeccf45c137, 0xb3ae6fa370070ab6, 0x79117d25a03fe7d0, 0xecf2f37f4310a7ff), 8) == S(0x4f097a9360b20667, 0x21742ed991f6c18a, 0x69f6086eb90371d2, 0xcbfe7edc2179bb70, 0x1ce55675542bef49)
  {
    assert Straight(S(0x52499ac9c84323a4, 0xae24eaeccf45c137, 0xb3ae6fa370070ab6, 0x79117d25a03fe7d0, 0xecf2f37f4310a7ff), Word(0xb4)) == S(0xac9492fe7d0866ae, 0x9bcb5f658da03f33, 0x40465b7caa6d5a44, 0x389ee6e23cf289e6, 0x8b9f578a07afa48f);
    assert Straight(S(0xac9492fe7d0866ae, 0x9bcb5f658da03f33, 0x40465b7caa6d5a44, 0x389ee6e23cf289e6, 0x8b9f578a07afa48f), Word(0xa5)) == S(0xd5e40e38e791ce12, 0xedff4fde4b0036b1, 0x6657d0320dcc9fce, 0xee5f03c6fab58277, 0x694906b750b44a8e);
    assert Straight(S(0xd5e40e38e791ce12, 0xedff4fde4b0036b1, 0x6657d0320dcc9fce, 0xee5f03c6fab58277, 0x694906b750b44a8e), Word(0x96)) == S(0x78872554e42495d4, 0x69aadc9ba077f944, 0x36298ba36f4e5dab, 0x2b40a91ec47de4e5, 0x6739ca58cda6db0c);
    assert Straight(S(0x78872554e42495d4, 0x69aadc9ba077f944, 0x36298ba36f4e5dab, 0x2b40a91ec47de4e5, 0x6739ca58cda6db0c), Word(0x87)) == S(0x4f097a9360b20667, 0x21742ed991f6c18a, 0x69f6086eb90371d2, 0xcbfe7edc2179bb70, 0x1ce55675542bef49);
  }

  lemma EncryptedWhole4()
    ensures Four(S(0x4f097a9360b20667, 0x21742ed991f6c18a, 0x69f6086eb90371d2, 0xcbfe7edc2179bb70, 0x1ce55675542bef49), 4) == S(0x8b3cf8ca1720b1c2, 0x5c4b9827fc1dfa5b, 0x830db4f448e631e0, 0x8907ea0d2db34e7c, 0x8c9666a0ec79d945)
  {
    assert Straight(S(0x4f097a9360b20667, 0x21742ed991f6c18a, 0x69f6086eb90371d2, 0xcbfe7edc2179bb70, 0x1ce55675542bef49), Word(0x78)) == S(0xf71b20828e32f7ac, 0xd14c44fa462441c5, 0xa84f46b8e4802e12, 0xf3537197f0168925, 0xdc9f26cfc927b985);
    assert Straight(S(0xf71b20828e32f7ac, 0xd14c44fa462441c5, 0xa84f46b8e4802e12, 0xf3537197f0168925, 0xdc9f26cfc927b985), Word(0x69)) == S(0x9e68fb587cc190da, 0x91a1ff76d21f990f, 0x496145e02b161a22, 0x4e7481eb415cf33f, 0xc367975d5f1cd10d);
    assert Straight(S(0x9e68fb587cc190da, 0x91a1ff76d21f990f, 0x496145e02b161a22, 0x4e7481eb415cf33f, 0xc367975d5f1cd10d), Word(0x5a)) == S(0xae30d38fd6795512, 0xa1bf2b195d264a81, 0xd7ba8b8e60ee9b3e, 0x3c2c08647f5d8065, 0x9bcfc3925ad8e68c);
    assert Straight(S(0xae30d38fd6795512, 0xa1bf2b195d264a81, 0xd7ba8b8e60ee9b3e, 0x3c2c08647f5d8065, 0x9bcfc3925ad8e68c), Word(0x4b)) == S(0x8b3cf8ca1720b1c2, 0x5c4b9827fc1dfa5b, 0x830db4f448e631e0, 0x8907ea0d2db34e7c, 0x8c9666a0ec79d945);
  }

  lemma EncryptedWhole()
    ensures Permute(S(0x52499ac9c84323a4, 0xae24eaeccf45c137, 0xb3ae6fa370070ab6, 0x79117d25a03fe7d0, 0xecf2f37f4310a7ff), 8) == S(0x8b3cf8ca1720b1c2, 0x5c4b9827fc1dfa5b, 0x830db4f448e631e0, 0x8907ea0d2db34e7c, 0x8c9666a0ec79d945)
  {
    hide Permute, Four;
    EncryptedWhole0();
    FourIs(S(0x52499ac9c84323a4, 0xae24eaeccf45c137, 0xb3ae6fa370070ab6, 0x79117d25a03fe7d0, 0xecf2f37f4310a7ff), 8);
    EncryptedWhole4();
    FourIs(S(0x4f097a9360b20667, 0x21742ed991f6c18a, 0x69f6086eb90371d2, 0xcbfe7edc2179bb70, 0x1ce55675542bef49), 4);
    NoRound(S(0x8b3cf8ca1720b1c2, 0x5c4b9827fc1dfa5b, 0x830db4f448e631e0, 0x8907ea0d2db34e7c, 0x8c9666a0ec79d945));
  }

  lemma FinishedWhole0()
    ensures Four(S(0xb3cf8ca1720b1c2, 0x5c4b9827fc1dfa5b, 0x830cb6f74ce337e7, 0x810ee00621be4073, 0x8c9666a0ec79d945), 12) == S(0x150eb8aa2cde6e88, 0xb1632dbec97ad8b9, 0xde7ee81de6614d9c, 0xc4a11c76eabf35ce, 0x4179d817454b4034)
  {
    assert Straight(S(0xb3cf8ca1720b1c2, 0x5c4b9827fc1dfa5b, 0x830cb6f74ce337e7, 0x810ee00621be4073, 0x8c9666a0ec79d945), Word(0xf0)) == S(0x7a2cfae2c2c8a131, 0xa98fa96ce523f370, 0x668c1f167cedfcc2, 0x441286b7889d856b, 0xd896d42b397a61bb);
    assert Straight(S(0x7a2cfae2c2c8a131, 0xa98fa96ce523f370, 0x668c1f167cedfcc2, 0x441286b7889d856b, 0xd896d42b397a61bb), Word(0xe1)) == S(0x1bdf77d3384ac7cf, 0x400581dd96b30a79, 0xee5f52dc9a71662, 0x6c723f80ed7957c8, 0x8f0237414c7dae6);
    assert Straight(S(0x1bdf77d3384ac7cf, 0x400581dd96b30a79, 0xee5f52dc9a71662, 0x6c723f80ed7957c8, 0x8f0237414c7dae6), Word(0xd2)) == S(0x69cf37712d7b35a7, 0x27bb5e096932f707, 0xab9630eb869a6b34, 0x91205c5ae280bae7, 0xefe5ed08c49d72e);
    assert Straight(S(0x69cf37712d7b35a7, 0x27bb5e096932f707, 0xab9630eb869a6b34, 0x91205c5ae280bae7, 0xefe5ed08c49d72e), Word(0xc3)) == S(0x150eb8aa2cde6e88, 0xb1632dbec97ad8b9, 0xde7ee81de6614d9c, 0xc4a11c76eabf35ce, 0x4179d817454b4034);
  }

  lemma FinishedWhole4()
    ensures Four(S(0x150eb8aa2cde6e88, 0xb1632dbec97ad8b9, 0xde7ee81de6614d9c, 0xc4a11c76eabf35ce, 0x4179d817454b4034), 8) == S(0x88ca4562b6137ebb, 0xf3be48a4f826e321, 0x95a54018c9985d16, 0x7e2150b306750962, 0x273bfb6d0ed8b7ef)
  {
    assert Straight(S(0x150eb8aa2cde6e88, 0xb1632dbec97ad8b9, 0xde7ee81de6614d9c, 0xc4a11c76eabf35ce, 0x4179d817454b4034), Word(0xb4)) == S(0x6fd36a7ae607ffb0, 0xda60aa42e24b1838, 0xa3216c9a4820afd8, 0x950874e74e619363, 0x6306b7a31453f4d4);
    assert Straight(S(0x6fd36a7ae607ffb0, 0xda60aa42e24b1838, 0xa3216c9a4820afd8, 0x950874e74e619363, 0x6306b7a31453f4d4), Word(0xa5)) == S(0xb65601d870eaaffd, 0xa6e4656ecb256de6, 0x2d7605dc7a532289, 0x9e46c9622b1a75ce, 0xd94ba03f011f1230);
    assert Straight(S(0xb65601d870eaaffd, 0xa6e4656ecb256de6, 0x2d7605dc7a532289, 0x9e46c9622b1a75ce, 0xd94ba03f011f1230), Word(0x96)) == S(0xe8ca1894ae0e0612, 0xc2d43251ed74ad08, 0xf703720528f0d9e5, 0xad51044b14dca3a2, 0xd4b2f59ce526db05);
    assert Straight(S(0xe8ca1894ae0e0612, 0xc2d43251ed74ad08, 0xf703720528f0d9e5, 0xad51044b14dca3a2, 0xd4b2f59ce526db05), Word(0x87)) == S(0x88ca4562b6137ebb, 0xf3be48a4f826e321, 0x95a54018c9985d16, 0x7e2150b306750962, 0x273bfb6d0ed8b7ef);
  }

  lemma FinishedWhole8()
    ensures Four(S(0x88ca4562b6137ebb, 0xf3be48a4f826e321, 0x95a54018c9985d16, 0x7e2150b306750962, 0x273bfb6d0ed8b7ef), 4) == S(0x39da379453e6d36b, 0x2887366f514209f, 0x94fbee7f31ac2ae7, 0x316c78b27321bc60, 0xa057c737085aca56)
  {
    assert Straight(S(0x88ca4562b6137ebb, 0xf3be48a4f826e321, 0x95a54018c9985d16, 0x7e2150b306750962, 0x273bfb6d0ed8b7ef), Word(0x78)) == S(0xf6761a5f55322112, 0x2395fb5c4815528c, 0xa2e28b781ab62b7f, 0x239648dbac03c720, 0xee228666e21c05e0);
    assert Straight(S(0xf6761a5f55322112, 0x2395fb5c4815528c, 0xa2e28b781ab62b7f, 0x239648dbac03c720, 0xee228666e21c05e0), Word(0x69)) == S(0x1d8f6de7a58d9756, 0x6cbb20ded46555f7, 0xfd36ad27e75dc7ed, 0xa1ba31f06c327ba0, 0x8b6ac1ea9275973b);
    assert Straight(S(0x1d8f6de7a58d9756, 0x6cbb20ded46555f7, 0xfd36ad27e75dc7ed, 0xa1ba31f06c327ba0, 0x8b6ac1ea9275973b), Word(0x5a)) == S(0xa864ef050223a072, 0xf530b11a9c2c9f8b, 0xc7bb21c240b996d0, 0x7f7633b3f547363f, 0x345044752a9f5903);
    assert Straight(S(0xa864ef050223a072, 0xf530b11a9c2c9f8b, 0xc7bb21c240b996d0, 0x7f7633b3f547363f, 0x345044752a9f5903), Word(0x4b)) == S(0x39da379453e6d36b, 0x2887366f514209f, 0x94fbee7f31ac2ae7, 0x316c78b27321bc60, 0xa057c737085aca56);
  }

  lemma FinishedWhole()
    ensures Permute(S(0xb3cf8ca1720b1c2, 0x5c4b9827fc1dfa5b, 0x830cb6f74ce337e7, 0x810ee00621be4073, 0x8c9666a0ec79d945), 12) == S(0x39da379453e6d36b, 0x2887366f514209f, 0x94fbee7f31ac2ae7, 0x316c78b27321bc60, 0xa057c737085aca56)
  {
    hide Permute, Four;
    FinishedWhole0();
    FourIs(S(0xb3cf8ca1720b1c2, 0x5c4b9827fc1dfa5b, 0x830cb6f74ce337e7, 0x810ee00621be4073, 0x8c9666a0ec79d945), 12);
    FinishedWhole4();
    FourIs(S(0x150eb8aa2cde6e88, 0xb1632dbec97ad8b9, 0xde7ee81de6614d9c, 0xc4a11c76eabf35ce, 0x4179d817454b4034), 8);
    FinishedWhole8();
    FourIs(S(0x88ca4562b6137ebb, 0xf3be48a4f826e321, 0x95a54018c9985d16, 0x7e2150b306750962, 0x273bfb6d0ed8b7ef), 4);
    NoRound(S(0x39da379453e6d36b, 0x2887366f514209f, 0x94fbee7f31ac2ae7, 0x316c78b27321bc60, 0xa057c737085aca56));
  }

  // ---------- bytes and words ----------

  lemma Eight(a: bv8, b: bv8, c: bv8, d: bv8, e: bv8, f: bv8, g: bv8, h: bv8, w: bv64)
    requires PushBits(PushBits(PushBits(PushBits(PushBits(PushBits(PushBits(PushBits(0, a), b), c), d), e), f), g), h) == w
    ensures Load([a, b, c, d, e, f, g, h]) == Word(w) && Store(Word(w)) == [a, b, c, d, e, f, g, h]
  {
    hide PushBits, Store;
    var s := [a, b, c, d, e, f, g, h];
    LoadSteps(s);
    StoreLoad(s);
  }

  lemma LoadSteps(s: Bytes)
    requires |s| == 8
    ensures Load(s) == Push(Push(Push(Push(Push(Push(Push(Push(Word(0), s[0]), s[1]), s[2]), s[3]), s[4]), s[5]), s[6]), s[7])
  {
    hide Push;
    assert Load(s[..0]) == Word(0);
    Snoc(s, 0); Snoc(s, 1); Snoc(s, 2); Snoc(s, 3); Snoc(s, 4); Snoc(s, 5); Snoc(s, 6); Snoc(s, 7);
    assert s[..8] == s;
  }

  lemma Snoc(s: Bytes, i: nat)
    requires i < |s|
    ensures Load(s[..i + 1]) == Push(Load(s[..i]), s[i])
  {
    hide Push;
    assert s[..i + 1][..i] == s[..i];
  }

  lemma Words()
    ensures Load([0x00, 0x01, 0x02, 0x03, 0x04, 0x05, 0x06, 0x07]) == Word(0x1020304050607) && Store(Word(0x1020304050607)) == [0x00, 0x01, 0x02, 0x03, 0x04, 0x05, 0x06, 0x07]
    ensures Load([0x08, 0x09, 0x0a, 0x0b, 0x0c, 0x0d, 0x0e, 0x0f]) == Word(0x8090a0b0c0d0e0f) && Store(Word(0x8090a0b0c0d0e0f)) == [0x08, 0x09, 0x0a, 0x0b, 0x0c, 0x0d, 0x0e, 0x0f]
    ensures Load([0x10, 0x80, 0x00, 0x00, 0x00, 0x00, 0x00, 0x00]) == Word(0x1080000000000000) && Store(Word(0x1080000000000000)) == [0x10, 0x80, 0x00, 0x00, 0x00, 0x00, 0x00, 0x00]
    ensures Load([0x80, 0x00, 0x00, 0x00, 0x00, 0x00, 0x00, 0x00]) == Word(0x8000000000000000) && Store(Word(0x8000000000000000)) == [0x80, 0x00, 0x00, 0x00, 0x00, 0x00, 0x00, 0x00]
    ensures Load([0x00, 0x00, 0x00, 0x00, 0x00, 0x00, 0x00, 0x00]) == Word(0x0) && Store(Word(0x0)) == [0x00, 0x00, 0x00, 0x00, 0x00, 0x00, 0x00, 0x00]
    ensures Load([0x7a, 0x83, 0x4e, 0x6f, 0x09, 0x21, 0x09, 0x57]) == Word(0x7a834e6f09210957) && Store(Word(0x7a834e6f09210957)) == [0x7a, 0x83, 0x4e, 0x6f, 0x09, 0x21, 0x09, 0x57]
    ensures Load([0x06, 0x7b, 0x10, 0xfd, 0x83, 0x1f, 0x00, 0x78]) == Word(0x67b10fd831f0078) && Store(Word(0x67b10fd831f0078)) == [0x06, 0x7b, 0x10, 0xfd, 0x83, 0x1f, 0x00, 0x78]
    ensures Load([0xbc, 0x26, 0xa0, 0x71, 0xc8, 0x6e, 0x16, 0xad]) == Word(0xbc26a071c86e16ad) && Store(Word(0xbc26a071c86e16ad)) == [0xbc, 0x26, 0xa0, 0x71, 0xc8, 0x6e, 0x16, 0xad]
    ensures Load([0x25, 0x1f, 0xd2, 0xad, 0x8d, 0x31, 0x39, 0xf4]) == Word(0x251fd2ad8d3139f4) && Store(Word(0x251fd2ad8d3139f4)) == [0x25, 0x1f, 0xd2, 0xad, 0x8d, 0x31, 0x39, 0xf4]
    ensures Load([0x3b, 0x7c, 0xdd, 0xcb, 0xdf, 0xb9, 0xd3, 0xdf]) == Word(0x3b7cddcbdfb9d3df) && Store(Word(0x3b7cddcbdfb9d3df)) == [0x3b, 0x7c, 0xdd, 0xcb, 0xdf, 0xb9, 0xd3, 0xdf]
    ensures Load([0x1d, 0x71, 0xc0, 0x09, 0x4e, 0x2b, 0x77, 0x15]) == Word(0x1d71c0094e2b7715) && Store(Word(0x1d71c0094e2b7715)) == [0x1d, 0x71, 0xc0, 0x09, 0x4e, 0x2b, 0x77, 0x15]
    ensures Load([0x06, 0x42, 0xb9, 0x1f, 0xdb, 0x91, 0xfc, 0xb2]) == Word(0x642b91fdb91fcb2) && Store(Word(0x642b91fdb91fcb2)) == [0x06, 0x42, 0xb9, 0x1f, 0xdb, 0x91, 0xfc, 0xb2]
    ensures Load([0x52, 0x49, 0x9a, 0xc9, 0xc8, 0x43, 0x23, 0xa4]) == Word(0x52499ac9c84323a4) && Store(Word(0x52499ac9c84323a4)) == [0x52, 0x49, 0x9a, 0xc9, 0xc8, 0x43, 0x23, 0xa4]
    ensures Load([0xae, 0x24, 0xea, 0xec, 0xcf, 0x45, 0xc1, 0x37]) == Word(0xae24eaeccf45c137) && Store(Word(0xae24eaeccf45c137)) == [0xae, 0x24, 0xea, 0xec, 0xcf, 0x45, 0xc1, 0x37]
    ensures Load([0x31, 0x6d, 0x7a, 0xb1, 0x77, 0x24, 0xba, 0x67]) == Word(0x316d7ab17724ba67) && Store(Word(0x316d7ab17724ba67)) == [0x31, 0x6d, 0x7a, 0xb1, 0x77, 0x24, 0xba, 0x67]
    ensures Load([0xa8, 0x5e, 0xcd, 0x3c, 0x04, 0x57, 0xc4, 0x59]) == Word(0xa85ecd3c0457c459) && Store(Word(0xa85ecd3c0457c459)) == [0xa8, 0x5e, 0xcd, 0x3c, 0x04, 0x57, 0xc4, 0x59]
  {
    hide Load, Store;
    Eight(0x00, 0x01, 0x02, 0x03, 0x04, 0x05, 0x06, 0x07, 0x1020304050607);
    Eight(0x08, 0x09, 0x0a, 0x0b, 0x0c, 0x0d, 0x0e, 0x0f, 0x8090a0b0c0d0e0f);
    Eight(0x10, 0x80, 0x00, 0x00, 0x00, 0x00, 0x00, 0x00, 0x1080000000000000);
    Eight(0x80, 0x00, 0x00, 0x00, 0x00, 0x00, 0x00, 0x00, 0x8000000000000000);
    Eight(0x00, 0x00, 0x00, 0x00, 0x00, 0x00, 0x00, 0x00, 0x0);
    Eight(0x7a, 0x83, 0x4e, 0x6f, 0x09, 0x21, 0x09, 0x57, 0x7a834e6f09210957);
    Eight(0x06, 0x7b, 0x10, 0xfd, 0x83, 0x1f, 0x00, 0x78, 0x67b10fd831f0078);
    Eight(0xbc, 0x26, 0xa0, 0x71, 0xc8, 0x6e, 0x16, 0xad, 0xbc26a071c86e16ad);
    Eight(0x25, 0x1f, 0xd2, 0xad, 0x8d, 0x31, 0x39, 0xf4, 0x251fd2ad8d3139f4);
    Eight(0x3b, 0x7c, 0xdd, 0xcb, 0xdf, 0xb9, 0xd3, 0xdf, 0x3b7cddcbdfb9d3df);
    Eight(0x1d, 0x71, 0xc0, 0x09, 0x4e, 0x2b, 0x77, 0x15, 0x1d71c0094e2b7715);
    Eight(0x06, 0x42, 0xb9, 0x1f, 0xdb, 0x91, 0xfc, 0xb2, 0x642b91fdb91fcb2);
    Eight(0x52, 0x49, 0x9a, 0xc9, 0xc8, 0x43, 0x23, 0xa4, 0x52499ac9c84323a4);
    Eight(0xae, 0x24, 0xea, 0xec, 0xcf, 0x45, 0xc1, 0x37, 0xae24eaeccf45c137);
    Eight(0x31, 0x6d, 0x7a, 0xb1, 0x77, 0x24, 0xba, 0x67, 0x316d7ab17724ba67);
    Eight(0xa8, 0x5e, 0xcd, 0x3c, 0x04, 0x57, 0xc4, 0x59, 0xa85ecd3c0457c459);
  }

  // ---------- the vectors ----------

  function Key(): (b: Bytes)
    ensures |b| == 16
  {
    [0x00, 0x01, 0x02, 0x03, 0x04, 0x05, 0x06, 0x07, 0x08, 0x09, 0x0a, 0x0b, 0x0c, 0x0d, 0x0e, 0x0f]
  }

  // Seventeen counting bytes: one full block and one byte.
  function Counting(): (b: Bytes)
    ensures |b| == 17
  {
    [0x00, 0x01, 0x02, 0x03, 0x04, 0x05, 0x06, 0x07, 0x08, 0x09, 0x0a, 0x0b, 0x0c, 0x0d, 0x0e, 0x0f, 0x10]
  }

  lemma Halves()
    ensures Key()[..8] == [0x00, 0x01, 0x02, 0x03, 0x04, 0x05, 0x06, 0x07] && Key()[8..] == [0x08, 0x09, 0x0a, 0x0b, 0x0c, 0x0d, 0x0e, 0x0f]
    ensures Counting()[..RATE] == Key() && Counting()[RATE..] == [0x10]
    ensures Pad([])[..8] == [0x80, 0x00, 0x00, 0x00, 0x00, 0x00, 0x00, 0x00] && Pad([])[8..] == [0x00, 0x00, 0x00, 0x00, 0x00, 0x00, 0x00, 0x00]
    ensures Pad([0x10])[..8] == [0x10, 0x80, 0x00, 0x00, 0x00, 0x00, 0x00, 0x00] && Pad([0x10])[8..] == [0x00, 0x00, 0x00, 0x00, 0x00, 0x00, 0x00, 0x00]
  {}

  lemma InitialState()
    ensures Initial(Key(), Key()) == S(0x6e480efdd1b65260, 0x6f3c06d33047c1b2, 0x63a829beb8aad370, 0xa282e964b4b757ec, 0x3bf3b375a49ae6d)
  {
    hide Permute, Load;
    Halves();
    Words();
    Initialised();
    assert IV == Word(0x80800c0800000000);
  }

  // Adding a block given by its two words.
  lemma Added(s: State, b: Bytes, p: bv64, q: bv64)
    requires |b| == RATE && Load(b[..8]) == Word(p) && Load(b[8..]) == Word(q)
    ensures AddBlock(s, b) == s.(x0 := Xor(s.x0, Word(p)), x1 := Xor(s.x1, Word(q)))
  {
    hide Load, Xor, XorBytes, RateBytes, SetRate;
    AddToRate(s, b);
  }

  lemma AddedRate(s: State, b: Bytes)
    requires |b| == RATE
    ensures XorBytes(RateBytes(s), b) == RateBytes(AddBlock(s, b)) && SetRate(s, XorBytes(RateBytes(s), b)) == AddBlock(s, b)
  {
    hide SetRate, RateBytes, XorBytes;
    RateOfSetRate(s, XorBytes(RateBytes(s), b));
  }

  // The last block of a text, and one full block before it.
  lemma LastBlock(s: State, pt: Bytes)
    requires |pt| < RATE
    ensures EncBody(s, pt) == Body(RateBytes(AddBlock(s, Pad(pt)))[..|pt|], AddBlock(s, Pad(pt)))
  {
    hide SetRate, RateBytes, XorBytes, Pad, AddBlock;
    AddedRate(s, Pad(pt));
  }

  lemma FullBlock(s: State, pt: Bytes)
    requires RATE <= |pt| < 2 * RATE
    ensures var t := AddBlock(s, pt[..RATE]);
            var rest := EncBody(Permute(t, ROUNDS_B), pt[RATE..]);
            EncBody(s, pt) == Body(RateBytes(t) + rest.text, rest.state)
  {
    hide SetRate, RateBytes, XorBytes, Pad, AddBlock, Permute;
    AddedRate(s, pt[..RATE]);
  }

  // The first vector: empty associated data and text.
  lemma EmptyVector()
    ensures Encrypt(Key(), Key(), [], []) == [0x7a, 0x83, 0x4e, 0x6f, 0x09, 0x21, 0x09, 0x57, 0x06, 0x7b, 0x10, 0xfd, 0x83, 0x1f, 0x00, 0x78]
  {
    hide Permute, Load, Store, Pad, AddBlock, EncBody, Initial;
    Halves();
    Words();
    InitialState();
    var s := Absorb(Initial(Key(), Key()), []);
    assert s == S(0x6e480efdd1b65260, 0x6f3c06d33047c1b2, 0x63a829beb8aad370, 0xa282e964b4b757ec, 0x3bf3b375a49ae6c);
    LastBlock(s, []);
    Added(s, Pad([]), 0x8000000000000000, 0);
    FinishedEmpty();
  }

  // Vector 579: seventeen bytes each of text and of associated data.
  lemma LongVector()
    ensures Encrypt(Key(), Key(), Counting(), Counting()) ==
            [0xbc, 0x26, 0xa0, 0x71, 0xc8, 0x6e, 0x16, 0xad, 0x25, 0x1f, 0xd2, 0xad, 0x8d, 0x31, 0x39, 0xf4, 0x3b, 0x1d, 0x71, 0xc0, 0x09, 0x4e, 0x2b, 0x77, 0x15, 0x06, 0x42, 0xb9, 0x1f, 0xdb, 0x91, 0xfc, 0xb2]
  {
    hide Permute, Load, Store, Pad, AddBlock, EncBody, Initial, Absorb, RateBytes, Tag;
    Halves();
    InitialState();
    LongAbsorbed();
    LongEncrypted();
    LongTag();
  }

  lemma LongAbsorbed()
    ensures Absorb(S(0x6e480efdd1b65260, 0x6f3c06d33047c1b2, 0x63a829beb8aad370, 0xa282e964b4b757ec, 0x3bf3b375a49ae6d), Counting()) == S(0xbc27a272cc6b10aa, 0x2d16d8a6813c37fb, 0xb6bc02a385d8171c, 0x29e851463b7944de, 0x602afaf1bc8a68ae)
  {
    hide Permute, Load, Pad, AddBlock;
    Halves();
    Words();
    var s := S(0x6e480efdd1b65260, 0x6f3c06d33047c1b2, 0x63a829beb8aad370, 0xa282e964b4b757ec, 0x3bf3b375a49ae6d);
    Added(s, Key(), 0x1020304050607, 0x8090a0b0c0d0e0f);
    AbsorbedFirst();
    var t := S(0x40e86dc599ee094b, 0x780045485f506b1, 0xbe22a3c5cbbbe011, 0x13898239be608a1b, 0x9f8f7e20b5622fb3);
    Added(t, Pad([0x10]), 0x1080000000000000, 0);
    AbsorbedLast();
    assert AbsorbBlocks(s, Counting()) == AbsorbBlocks(t, [0x10]);
  }

  lemma LongEncrypted()
    ensures EncBody(S(0xbc27a272cc6b10aa, 0x2d16d8a6813c37fb, 0xb6bc02a385d8171c, 0x29e851463b7944de, 0x602afaf1bc8a68ae), Counting()) == Body([0xbc, 0x26, 0xa0, 0x71, 0xc8, 0x6e, 0x16, 0xad, 0x25, 0x1f, 0xd2, 0xad, 0x8d, 0x31, 0x39, 0xf4, 0x3b], S(0x3b7cddcbdfb9d3df, 0xfaeca5478543ecaf, 0x762b30c79f624b60, 0xe85039f4849ce216, 0xe8fc281a66df323))
  {
    hide Permute, Load, Store, Pad, AddBlock, EncBody;
    Halves();
    Words();
    var s := S(0xbc27a272cc6b10aa, 0x2d16d8a6813c37fb, 0xb6bc02a385d8171c, 0x29e851463b7944de, 0x602afaf1bc8a68ae);
    FullBlock(s, Counting());
    Added(s, Key(), 0x1020304050607, 0x8090a0b0c0d0e0f);
    EncryptedFirst();
    var t := S(0x2bfcddcbdfb9d3df, 0xfaeca5478543ecaf, 0x762b30c79f624b60, 0xe85039f4849ce216, 0xe8fc281a66df323);
    LastBlock(t, [0x10]);
    Added(t, Pad([0x10]), 0x1080000000000000, 0);
  }

  lemma LongTag()
    ensures Tag(S(0x3b7cddcbdfb9d3df, 0xfaeca5478543ecaf, 0x762b30c79f624b60, 0xe85039f4849ce216, 0xe8fc281a66df323), Key()) == [0x1d, 0x71, 0xc0, 0x09, 0x4e, 0x2b, 0x77, 0x15, 0x06, 0x42, 0xb9, 0x1f, 0xdb, 0x91, 0xfc, 0xb2]
  {
    hide Permute, Load, Store;
    Halves();
    Words();
    Finished();
  }

  // Vector 545: exactly one block each of text and of associated data, so that a whole block of padding follows both.
  lemma WholeVector()
    ensures Encrypt(Key(), Key(), Key(), Key()) ==
            [0x52, 0x49, 0x9a, 0xc9, 0xc8, 0x43, 0x23, 0xa4, 0xae, 0x24, 0xea, 0xec, 0xcf, 0x45, 0xc1, 0x37, 0x31, 0x6d, 0x7a, 0xb1, 0x77, 0x24, 0xba, 0x67, 0xa8, 0x5e, 0xcd, 0x3c, 0x04, 0x57, 0xc4, 0x59]
  {
    hide Permute, Load, Store, Pad, AddBlock, EncBody, Initial, Absorb, RateBytes, Tag;
    InitialState();
    WholeAbsorbed();
    WholeEncrypted();
    WholeTag();
  }

  lemma WholeAbsorbed()
    ensures Absorb(S(0x6e480efdd1b65260, 0x6f3c06d33047c1b2, 0x63a829beb8aad370, 0xa282e964b4b757ec, 0x3bf3b375a49ae6d), Key()) == S(0x524898cacc4625a3, 0xa62de0e7c348cf38, 0xb3ae6fa370070ab6, 0x79117d25a03fe7d0, 0xecf2f37f4310a7ff)
  {
    hide Permute, Load, Pad, AddBlock;
    Halves();
    Words();
    var s := S(0x6e480efdd1b65260, 0x6f3c06d33047c1b2, 0x63a829beb8aad370, 0xa282e964b4b757ec, 0x3bf3b375a49ae6d);
    assert Key()[..RATE] == Key() && Key()[RATE..] == [];
    Added(s, Key(), 0x1020304050607, 0x8090a0b0c0d0e0f);
    AbsorbedFirst();
    var t := S(0x40e86dc599ee094b, 0x780045485f506b1, 0xbe22a3c5cbbbe011, 0x13898239be608a1b, 0x9f8f7e20b5622fb3);
    Added(t, Pad([]), 0x8000000000000000, 0);
    AbsorbedPadding();
    assert AbsorbBlocks(s, Key()) == AbsorbBlocks(t, []);
  }

  lemma WholeEncrypted()
    ensures EncBody(S(0x524898cacc4625a3, 0xa62de0e7c348cf38, 0xb3ae6fa370070ab6, 0x79117d25a03fe7d0, 0xecf2f37f4310a7ff), Key()) == Body([0x52, 0x49, 0x9a, 0xc9, 0xc8, 0x43, 0x23, 0xa4, 0xae, 0x24, 0xea, 0xec, 0xcf, 0x45, 0xc1, 0x37], S(0xb3cf8ca1720b1c2, 0x5c4b9827fc1dfa5b, 0x830db4f448e631e0, 0x8907ea0d2db34e7c, 0x8c9666a0ec79d945))
  {
    hide Permute, Load, Store, Pad, AddBlock, EncBody;
    Halves();
    Words();
    var s := S(0x524898cacc4625a3, 0xa62de0e7c348cf38, 0xb3ae6fa370070ab6, 0x79117d25a03fe7d0, 0xecf2f37f4310a7ff);
    assert Key()[..RATE] == Key() && Key()[RATE..] == [];
    FullBlock(s, Key());
    Added(s, Key(), 0x1020304050607, 0x8090a0b0c0d0e0f);
    EncryptedWhole();
    var t := S(0x8b3cf8ca1720b1c2, 0x5c4b9827fc1dfa5b, 0x830db4f448e631e0, 0x8907ea0d2db34e7c, 0x8c9666a0ec79d945);
    LastBlock(t, []);
    Added(t, Pad([]), 0x8000000000000000, 0);
  }

  lemma WholeTag()
    ensures Tag(S(0xb3cf8ca1720b1c2, 0x5c4b9827fc1dfa5b, 0x830db4f448e631e0, 0x8907ea0d2db34e7c, 0x8c9666a0ec79d945), Key()) == [0x31, 0x6d, 0x7a, 0xb1, 0x77, 0x24, 0xba, 0x67, 0xa8, 0x5e, 0xcd, 0x3c, 0x04, 0x57, 0xc4, 0x59]
  {
    hide Permute, Load, Store;
    Halves();
    Words();
    FinishedWhole();
  }
}
