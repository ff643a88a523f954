// The hash, MAC and key derivation of the constrained-hardware suite, and the strings they absorb.
module SpongentSuite {
  import opened Wrappers
  import opened Bits
  import opened Encoding
  import opened Spongent160
  import opened Sponge

  // The domain bytes come from core/Encoding; only their being different matters.
  datatype Domains = Domains(hash: bv8, mac: bv8, kdf: bv8) {
    predicate Valid() { hash != mac && mac != kdf && hash != kdf }
  }

  const SUITE_VERSION: bv8 := 0x01
  const HASH_LEN: nat := 20
  const MAC_LEN: nat := 16
  const MAX_OUT: nat := 0xFFFF

  // The three kinds of request, with the fields each binds.
  datatype Request =
    | HashRequest(message: Bytes)
    | MacRequest(key: Bytes, text: Bytes)
    | KdfRequest(ikm: Bytes, salt: Bytes, purpose: Bytes, info: Bytes, outLen: nat)

  // Length-prefixed fields are shorter than 65536 bytes, and so is a derived key.
  predicate InRange(r: Request) {
    match r
    case HashRequest(m) => |m| < 65536
    case MacRequest(k, _) => |k| < 65536
    case KdfRequest(i, s, p, o, n) => |i| < 65536 && |s| < 65536 && |p| < 65536 && |o| < 65536 && n <= MAX_OUT
  }

  function Fields(r: Request): Bytes
    requires r.KdfRequest?
  {
    LengthPrefixed(r.ikm) + (LengthPrefixed(r.salt) + (LengthPrefixed(r.purpose) + (LengthPrefixed(r.info) + U16be(r.outLen))))
  }

  // The absorbed string.
  function Absorbed(d: Domains, r: Request): (b: Bytes)
    ensures |b| > 0
  {
    match r
    case HashRequest(m) => [d.hash] + LengthPrefixed(m)
    case MacRequest(k, t) => [d.mac] + ([SUITE_VERSION] + (LengthPrefixed(k) + t))
    case KdfRequest(_, _, _, _, _) => [d.kdf] + ([SUITE_VERSION] + Fields(r))
  }

  lemma U16beUnique(a: nat, b: nat)
    requires a < 65536 && b < 65536 && U16be(a) == U16be(b)
    ensures a == b
  {
    hide U16be, ReadU16be;
    ReadWritten([], a, []);
    ReadWritten([], b, []);
    assert [] + U16be(a) + [] == U16be(a) && [] + U16be(b) + [] == U16be(b);
  }

  lemma FieldsUnique(r: Request, q: Request)
    requires r.KdfRequest? && q.KdfRequest? && InRange(r) && InRange(q) && Fields(r) == Fields(q)
    ensures r == q
  {
    hide LengthPrefixed, U16be;
    LengthPrefixedUnique(r.ikm, LengthPrefixed(r.salt) + (LengthPrefixed(r.purpose) + (LengthPrefixed(r.info) + U16be(r.outLen))),
                         q.ikm, LengthPrefixed(q.salt) + (LengthPrefixed(q.purpose) + (LengthPrefixed(q.info) + U16be(q.outLen))));
    LengthPrefixedUnique(r.salt, LengthPrefixed(r.purpose) + (LengthPrefixed(r.info) + U16be(r.outLen)),
                         q.salt, LengthPrefixed(q.purpose) + (LengthPrefixed(q.info) + U16be(q.outLen)));
    LengthPrefixedUnique(r.purpose, LengthPrefixed(r.info) + U16be(r.outLen),
                         q.purpose, LengthPrefixed(q.info) + U16be(q.outLen));
    LengthPrefixedUnique(r.info, U16be(r.outLen), q.info, U16be(q.outLen));
    U16beUnique(r.outLen, q.outLen);
  }

  lemma ConsUnique(x: bv8, s: Bytes, y: bv8, t: Bytes)
    requires [x] + s == [y] + t
    ensures x == y && s == t
  {
    assert ([x] + s)[0] == x && ([y] + t)[0] == y;
    assert ([x] + s)[1..] == s && ([y] + t)[1..] == t;
  }

  // Different requests, of the same or of different kinds, feed different blocks to the permutation.
  lemma RequestsDisjoint(d: Domains, r: Request, q: Request)
    requires d.Valid() && InRange(r) && InRange(q)
    requires Padded(Absorbed(d, r)) == Padded(Absorbed(d, q))
    ensures r == q
  {
    hide LengthPrefixed, Padded, Fields, InRange, SUITE_VERSION;
    PaddedInjective(Absorbed(d, r), Absorbed(d, q));
    First(d, r);
    First(d, q);
    match r {
      case HashRequest(m) =>
        ConsUnique(d.hash, LengthPrefixed(m), d.hash, LengthPrefixed(q.message));
        HashUnique(r, q);
      case MacRequest(k, t) =>
        var a, b := LengthPrefixed(k) + t, LengthPrefixed(q.key) + q.text;
        ConsUnique(d.mac, [SUITE_VERSION] + a, d.mac, [SUITE_VERSION] + b);
        ConsUnique(SUITE_VERSION, a, SUITE_VERSION, b);
        MacUnique(r, q);
      case KdfRequest(_, _, _, _, _) =>
        ConsUnique(d.kdf, [SUITE_VERSION] + Fields(r), d.kdf, [SUITE_VERSION] + Fields(q));
        ConsUnique(SUITE_VERSION, Fields(r), SUITE_VERSION, Fields(q));
        FieldsUnique(r, q);
    }
  }

  lemma First(d: Domains, r: Request)
    ensures Absorbed(d, r)[0] == if r.HashRequest? then d.hash else if r.MacRequest? then d.mac else d.kdf
  {
    hide LengthPrefixed, Fields;
  }

  lemma HashUnique(r: Request, q: Request)
    requires r.HashRequest? && q.HashRequest? && InRange(r) && InRange(q)
    requires LengthPrefixed(r.message) == LengthPrefixed(q.message)
    ensures r == q
  {
    hide LengthPrefixed;
    var m, n := r.message, q.message;
    assert LengthPrefixed(m) + [] == LengthPrefixed(m) && LengthPrefixed(n) + [] == LengthPrefixed(n);
    LengthPrefixedUnique(m, [], n, []);
  }

  lemma MacUnique(r: Request, q: Request)
    requires r.MacRequest? && q.MacRequest? && InRange(r) && InRange(q)
    requires LengthPrefixed(r.key) + r.text == LengthPrefixed(q.key) + q.text
    ensures r == q
  {
    hide LengthPrefixed;
    LengthPrefixedUnique(r.key, r.text, q.key, q.text);
  }

  // ---------- the suite ----------

  class SpongentSuite {
    const domains: Domains
    const table: PLayerTable

    ghost predicate Valid()
      reads this, table, table.row
    {
      domains.Valid() && table.Valid()
    }

    constructor (domains: Domains)
      requires domains.Valid()
      ensures Valid() && this.domains == domains && fresh(table) && fresh(table.row)
    {
      this.domains := domains;
      table := new PLayerTable();
    }

    method Hash160(message: Bytes) returns (out: Bytes)
      requires Valid()
      ensures out == AbsorbSqueeze(Absorbed(domains, HashRequest(message)), HASH_LEN) && |out| == 20
    {
      hide LengthPrefixed, AbsorbSqueeze, PLayerTable.Valid;
      var input: Bytes := [];
      input := input + [domains.hash];
      input := input + LengthPrefixed(message);
      assert input == Absorbed(domains, HashRequest(message));
      out := SpongeAbsorbSqueeze(table, input, HASH_LEN);
    }

    method MacRaw(key: Bytes, message: Bytes) returns (out: Bytes)
      requires Valid()
      ensures out == AbsorbSqueeze(Absorbed(domains, MacRequest(key, message)), MAC_LEN) && |out| == 16
    {
      hide LengthPrefixed, AbsorbSqueeze, PLayerTable.Valid;
      var input: Bytes := [];
      input := input + [domains.mac];
      input := input + [SUITE_VERSION];
      input := input + LengthPrefixed(key);
      input := input + message;
      assert input == Absorbed(domains, MacRequest(key, message));
      out := SpongeAbsorbSqueeze(table, input, MAC_LEN);
    }

    method MacVerify(key: Bytes, message: Bytes, tag: Bytes) returns (ok: bool)
      requires Valid()
      ensures ok <==> tag == AbsorbSqueeze(Absorbed(domains, MacRequest(key, message)), MAC_LEN)
      ensures ok ==> |tag| == 16
    {
      hide AbsorbSqueeze, Absorbed, PLayerTable.Valid;
      if |tag| != MAC_LEN { return false; }
      var expected := MacRaw(key, message);
      ok := expected == tag;
    }

    // Refuses lengths the two-byte field cannot hold.
    method KdfRaw(ikm: Bytes, salt: Bytes, purpose: Bytes, info: Bytes, outLen: nat) returns (out: Option<Bytes>)
      requires Valid()
      ensures out.None? <==> outLen > MAX_OUT
      ensures out.Some? ==>
                out.value == AbsorbSqueeze(Absorbed(domains, KdfRequest(ikm, salt, purpose, info, outLen)), outLen)
    {
      hide LengthPrefixed, AbsorbSqueeze, U16be, PLayerTable.Valid;
      if outLen > 0xFFFF { return None; }
      var input: Bytes := [];
      input := input + [domains.kdf];
      input := input + [SUITE_VERSION];
      input := input + LengthPrefixed(ikm);
      input := input + LengthPrefixed(salt);
      input := input + LengthPrefixed(purpose);
      input := input + LengthPrefixed(info);
      input := input + U16be(outLen);
      KdfString(ikm, salt, purpose, info, outLen);
      assert input == Absorbed(domains, KdfRequest(ikm, salt, purpose, info, outLen));
      var key := SpongeAbsorbSqueeze(table, input, outLen);
      out := Some(key);
    }

    lemma KdfString(ikm: Bytes, salt: Bytes, purpose: Bytes, info: Bytes, outLen: nat)
      ensures [domains.kdf] + [SUITE_VERSION] + LengthPrefixed(ikm) + LengthPrefixed(salt) + LengthPrefixed(purpose)
              + LengthPrefixed(info) + U16be(outLen)
           == Absorbed(domains, KdfRequest(ikm, salt, purpose, info, outLen))
    {
      hide LengthPrefixed, U16be;
    }
  }
}
