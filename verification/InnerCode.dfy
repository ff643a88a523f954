// Bit-level pieces of the fuzzy extractor: block extraction and the repetition inner code.
module InnerCode {
  import opened Bits
  import opened Encoding

  // ---------- bit-level pieces ----------

  // Bits base .. base + n of a packed string.
  function Slice(all: Bytes, base: nat, n: nat): (s: seq<bool>)
    requires base + n <= 8 * |all|
    ensures |s| == n && forall i :: 0 <= i < n ==> s[i] == GetBit(all, base + i)
  {
    seq(n, i requires 0 <= i < n => GetBit(all, base + i))
  }

  method ExtractBlock(all: Bytes, index: nat, bits: nat) returns (out: Bytes)
    requires index * bits + bits <= 8 * |all|
    ensures out == Pack(Slice(all, index * bits, bits))
  {
    hide GetBit, SetBit, Pack, Filled;
    out := ZeroBytes(BytesForBits(bits));
    var base := index * bits;
    ghost var s := Slice(all, base, bits);
    FillStart(s);
    for i := 0 to bits
      invariant Filled(out, s, i)
    {
      FillNext(out, s, i);
      out := SetBit(out, i, GetBit(all, base + i));
    }
    FillDone(out, s);
  }

  // ---------- the repetition inner code ----------

  function At(raw: Bytes, i: nat): bool { i < 8 * |raw| && GetBit(raw, i) }

  // The enrolled value of each outer bit is its first copy.
  function References(raw: Bytes, outerBits: nat, rep: nat): (s: seq<bool>)
    ensures |s| == outerBits && forall i :: 0 <= i < outerBits ==> s[i] == At(raw, i * rep)
  {
    seq(outerBits, i requires 0 <= i < outerBits => At(raw, i * rep))
  }

  function Offset(raw: Bytes, rep: nat, i: nat, r: nat): bool {
    At(raw, i * rep + r) != At(raw, i * rep)
  }

  // Published offset q belongs to outer bit q / (rep - 1) and copy q % (rep - 1) + 1.
  function OffsetAt(raw: Bytes, rep: nat, q: nat): bool
    requires rep >= 2
  {
    Offset(raw, rep, q / (rep - 1), q % (rep - 1) + 1)
  }

  lemma OffsetAtIs(raw: Bytes, rep: nat, i: nat, r: nat)
    requires 1 <= r < rep
    ensures OffsetAt(raw, rep, i * (rep - 1) + (r - 1)) == Offset(raw, rep, i, r)
  {
    hide Offset;
    DivModUnique(i, rep - 1, r - 1);
  }

  // Every other copy's difference from the reference, copy by copy.
  function Offsets(raw: Bytes, outerBits: nat, rep: nat): (s: seq<bool>)
    requires rep >= 2
    ensures |s| == outerBits * (rep - 1)
    ensures forall q :: 0 <= q < |s| ==> s[q] == OffsetAt(raw, rep, q)
  {
    seq(outerBits * (rep - 1), q requires 0 <= q => OffsetAt(raw, rep, q))
  }

  // Copy r of outer bit i with its published offset undone.
  function Realigned(raw: Bytes, offsets: Bytes, rep: nat, i: nat, r: nat): bool
    requires rep >= 1
  {
    At(raw, i * rep + r) != (r > 0 && At(offsets, i * (rep - 1) + (r - 1)))
  }

  function Ones(raw: Bytes, offsets: Bytes, rep: nat, i: nat, r: nat): nat
    requires rep >= 1
  {
    if r == 0 then 0 else Ones(raw, offsets, rep, i, r - 1) + (if Realigned(raw, offsets, rep, i, r - 1) then 1 else 0)
  }

  function Votes(raw: Bytes, offsets: Bytes, outerBits: nat, rep: nat): (s: seq<bool>)
    requires rep >= 1
    ensures |s| == outerBits
    ensures forall i :: 0 <= i < outerBits ==> s[i] == (Ones(raw, offsets, rep, i, rep) * 2 > rep)
  {
    seq(outerBits, i requires 0 <= i < outerBits => Ones(raw, offsets, rep, i, rep) * 2 > rep)
  }

  lemma InRange(outerBits: nat, d: nat, i: nat, r: nat)
    requires i < outerBits && r < d
    ensures i * d + r < outerBits * d
    ensures (i * d + r) / d == i && (i * d + r) % d == r
  {
    assert (i + 1) * d <= outerBits * d;
    assert (i + 1) * d == i * d + d;
    DivModUnique(i, d, r);
  }

  method RepetitionEncodeOffsets(raw: Bytes, outerBits: nat, rep: nat) returns (offsets: Bytes)
    requires rep >= 2 && outerBits * rep <= 8 * |raw|
    ensures offsets == Pack(Offsets(raw, outerBits, rep))
  {
    hide GetBit, SetBit, Pack, At, Filled, Offset, OffsetAt;
    ghost var s := Offsets(raw, outerBits, rep);
    offsets := ZeroBytes(BytesForBits(outerBits * (rep - 1)));
    FillStart(s);
    for i := 0 to outerBits
      invariant Filled(offsets, s, i * (rep - 1))
    {
      InRange(outerBits, rep, i, 0);
      var ref := GetBit(raw, i * rep);
      for r := 1 to rep
        invariant Filled(offsets, s, i * (rep - 1) + (r - 1))
      {
        InRange(outerBits, rep, i, r);
        InRange(outerBits, rep - 1, i, r - 1);
        var q := i * (rep - 1) + (r - 1);
        FillNext(offsets, s, q);
        var copy := GetBit(raw, i * rep + r);
        OffsetAtIs(raw, rep, i, r);
        OffsetIs(raw, rep, i, r);
        offsets := SetBit(offsets, q, copy != ref);
      }
      assert (i + 1) * (rep - 1) == i * (rep - 1) + (rep - 1);
    }
    FillDone(offsets, s);
  }

  lemma OffsetIs(raw: Bytes, rep: nat, i: nat, r: nat)
    requires i * rep + r < 8 * |raw|
    ensures Offset(raw, rep, i, r) == (GetBit(raw, i * rep + r) != GetBit(raw, i * rep))
  {}

  lemma AtIs(raw: Bytes, i: nat) requires i < 8 * |raw| ensures At(raw, i) == GetBit(raw, i) {}

  method RepetitionReference(raw: Bytes, outerBits: nat, rep: nat) returns (out: Bytes)
    requires rep >= 1 && outerBits * rep <= 8 * |raw|
    ensures out == Pack(References(raw, outerBits, rep))
  {
    hide GetBit, SetBit, Pack, At, Filled;
    ghost var s := References(raw, outerBits, rep);
    out := ZeroBytes(BytesForBits(outerBits));
    FillStart(s);
    for i := 0 to outerBits
      invariant Filled(out, s, i)
    {
      FillNext(out, s, i);
      InRange(outerBits, rep, i, 0);
      AtIs(raw, i * rep);
      out := SetBit(out, i, GetBit(raw, i * rep));
    }
    FillDone(out, s);
  }

  method RepetitionDecodeWithOffsets(raw: Bytes, offsets: Bytes, outerBits: nat, rep: nat) returns (out: Bytes)
    requires rep >= 1 && outerBits * rep <= 8 * |raw| && outerBits * (rep - 1) <= 8 * |offsets|
    ensures out == Pack(Votes(raw, offsets, outerBits, rep))
  {
    hide GetBit, SetBit, Pack, Filled, Ones;
    ghost var s := Votes(raw, offsets, outerBits, rep);
    out := ZeroBytes(BytesForBits(outerBits));
    FillStart(s);
    for i := 0 to outerBits
      invariant Filled(out, s, i)
    {
      FillNext(out, s, i);
      var ones := CountOnes(raw, offsets, outerBits, rep, i);
      out := SetBit(out, i, ones * 2 > rep);
    }
    FillDone(out, s);
  }

  method CountOnes(raw: Bytes, offsets: Bytes, outerBits: nat, rep: nat, i: nat) returns (ones: nat)
    requires rep >= 1 && outerBits * rep <= 8 * |raw| && outerBits * (rep - 1) <= 8 * |offsets| && i < outerBits
    ensures ones == Ones(raw, offsets, rep, i, rep)
  {
    hide GetBit;
    ones := 0;
    for r := 0 to rep
      invariant ones == Ones(raw, offsets, rep, i, r)
    {
      InRange(outerBits, rep, i, r);
      var bit := GetBit(raw, i * rep + r);
      if r > 0 {
        InRange(outerBits, rep - 1, i, r - 1);
        if GetBit(offsets, i * (rep - 1) + (r - 1)) { bit := !bit; }
      }
      if bit { ones := ones + 1; }
    }
  }

  // Copies of outer bit i that flipped since enrolment, among the first r.
  function Flips(enrolled: Bytes, noisy: Bytes, rep: nat, i: nat, r: nat): nat {
    if r == 0 then 0 else
      Flips(enrolled, noisy, rep, i, r - 1) + (if At(enrolled, i * rep + r - 1) != At(noisy, i * rep + r - 1) then 1 else 0)
  }

  // Once realigned, every copy is the reference bit, flipped exactly where the measurement flipped.
  lemma {:induction false} OnesAreFlips(enrolled: Bytes, noisy: Bytes, outerBits: nat, rep: nat, i: nat, r: nat)
    requires rep >= 2 && i < outerBits && r <= rep && outerBits * rep <= 8 * |enrolled|
    ensures var offsets := Pack(Offsets(enrolled, outerBits, rep));
            Ones(noisy, offsets, rep, i, r) ==
            if At(enrolled, i * rep) then r - Flips(enrolled, noisy, rep, i, r) else Flips(enrolled, noisy, rep, i, r)
  {
    hide GetBit, Pack, At, Offsets;
    if r > 0 {
      OnesAreFlips(enrolled, noisy, outerBits, rep, i, r - 1);
      RealignedCopy(enrolled, noisy, outerBits, rep, i, r - 1);
    }
  }

  lemma RealignedCopy(enrolled: Bytes, noisy: Bytes, outerBits: nat, rep: nat, i: nat, r: nat)
    requires rep >= 2 && i < outerBits && r < rep && outerBits * rep <= 8 * |enrolled|
    ensures Realigned(noisy, Pack(Offsets(enrolled, outerBits, rep)), rep, i, r) ==
            (At(enrolled, i * rep) != (At(enrolled, i * rep + r) != At(noisy, i * rep + r)))
  {
    hide GetBit, Pack, OffsetAt;
    if r > 0 {
      OffsetAtIs(enrolled, rep, i, r);
      var s := Offsets(enrolled, outerBits, rep);
      var q := i * (rep - 1) + (r - 1);
      InRange(outerBits, rep - 1, i, r - 1);
      assert At(Pack(s), q) == s[q];
      assert s[q] == Offset(enrolled, rep, i, r);
    }
  }

  // A voted bit is wrong if and only if more than half of its copies flipped: for three copies, two or three.
  lemma VoteWrongIffMajorityFlipped(enrolled: Bytes, noisy: Bytes, outerBits: nat, rep: nat, i: nat)
    requires rep >= 2 && rep % 2 == 1 && i < outerBits && outerBits * rep <= 8 * |enrolled|
    ensures var offsets := Pack(Offsets(enrolled, outerBits, rep));
            Votes(noisy, offsets, outerBits, rep)[i] != References(enrolled, outerBits, rep)[i] <==>
            2 * Flips(enrolled, noisy, rep, i, rep) > rep
  {
    hide GetBit, Pack, At, Offsets, Ones, Flips;
    OnesAreFlips(enrolled, noisy, outerBits, rep, i, rep);
  }
}
