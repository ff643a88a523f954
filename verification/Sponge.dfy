// The sponge over the SPONGENT permutation: padding, absorbing and squeezing.
module Sponge {
  import opened Bits
  import opened Spongent160

  const RATE: nat := 2

  // 10* padding to whole rate blocks; a full extra block when the input already ends on one.
  function Padded(m: Bytes): (r: Bytes)
    ensures |r| % RATE == 0 && |r| > |m|
  {
    if |m| % RATE == 0 then m + [0x80, 0x00] else m + [0x80]
  }

  // Different inputs feed different blocks to the permutation.
  lemma PaddedInjective(a: Bytes, b: Bytes)
    requires Padded(a) == Padded(b)
    ensures a == b
  {
    var p, n := Padded(a), |Padded(a)|;
    if |a| % RATE == 0 { assert p[n - 1] == 0x00; } else { assert p[n - 1] == 0x80; }
    if |b| % RATE == 0 { assert p[n - 1] == 0x00; } else { assert p[n - 1] == 0x80; }
    assert |a| == |b|;
    assert a == p[..|a|] && b == p[..|b|];
  }

  function AddRate(s: Bytes, x: bv8, y: bv8): (r: Bytes)
    requires |s| == STATE_BYTES
    ensures |r| == STATE_BYTES
  {
    s[0 := XorByte(s[0], x)][1 := XorByte(s[1], y)]
  }

  // Absorbs whole blocks.
  function Absorb(s: Bytes, blocks: Bytes): (r: Bytes)
    requires |s| == STATE_BYTES
    ensures |r| == STATE_BYTES
    decreases |blocks|
  {
    hide Permute, AddRate;
    if |blocks| < RATE then s else Absorb(Permute(AddRate(s, blocks[0], blocks[1])), blocks[RATE..])
  }

  // The first n bytes of the output stream from a state.
  function Squeeze(s: Bytes, n: nat): (r: Bytes)
    requires |s| == STATE_BYTES
    ensures |r| == n
    decreases n
  {
    hide Permute;
    if n <= RATE then s[..n] else s[..RATE] + Squeeze(Permute(s), n - RATE)
  }

  function ZeroState(): (s: Bytes)
    ensures |s| == STATE_BYTES
  {
    seq(STATE_BYTES, _ => 0)
  }

  function AbsorbSqueeze(input: Bytes, n: nat): (r: Bytes)
    ensures |r| == n
  {
    Squeeze(Absorb(ZeroState(), Padded(input)), n)
  }

  // A shorter squeeze is a prefix of a longer one.
  lemma {:induction false} SqueezePrefix(s: Bytes, k: nat, n: nat)
    requires |s| == STATE_BYTES && k <= n
    ensures Squeeze(s, k) == Squeeze(s, n)[..k]
    decreases n
  {
    hide Permute;
    if n > RATE && k > RATE { SqueezePrefix(Permute(s), k - RATE, n - RATE); }
  }

  lemma OutputPrefix(input: Bytes, k: nat, n: nat)
    requires k <= n
    ensures AbsorbSqueeze(input, k) == AbsorbSqueeze(input, n)[..k]
  {
    hide Squeeze, Absorb, Padded;
    SqueezePrefix(Absorb(ZeroState(), Padded(input)), k, n);
  }

  lemma {:induction false} AbsorbConcat(s: Bytes, a: Bytes, x: bv8, y: bv8)
    requires |s| == STATE_BYTES && |a| % RATE == 0
    ensures Absorb(s, a + [x, y]) == Permute(AddRate(Absorb(s, a), x, y))
    decreases |a|
  {
    hide Permute, AddRate;
    if |a| == 0 {
      assert a + [x, y] == [x, y];
      assert [x, y][RATE..] == [];
    } else {
      assert (a + [x, y])[RATE..] == a[RATE..] + [x, y];
      AbsorbConcat(Permute(AddRate(s, a[0], a[1])), a[RATE..], x, y);
    }
  }

  // ---------- the output byte by byte ----------

  // The message, a single one bit, and zeros up to the next whole block.
  lemma PaddedBytes(m: Bytes, i: nat)
    requires i < |Padded(m)|
    ensures |Padded(m)| == RATE * (|m| / RATE + 1)
    ensures Padded(m)[i] == if i < |m| then m[i] else if i == |m| then 0x80 else 0
  {}

  // Block i of a string, in the first bytes of an otherwise zero state.
  function BlockState(m: Bytes, i: nat): (b: Bytes)
    requires RATE * i + RATE <= |m|
    ensures |b| == STATE_BYTES
  {
    m[RATE * i..RATE * i + RATE] + ZeroState()[RATE..]
  }

  // The state after the first n blocks: each is added to the whole state, which is then permuted.
  function Stage(m: Bytes, n: nat): (s: Bytes)
    requires RATE * n <= |m|
    ensures |s| == STATE_BYTES
  {
    hide Permute, XorBytes, BlockState;
    if n == 0 then ZeroState() else Permute(XorBytes(Stage(m, n - 1), BlockState(m, n - 1)))
  }

  function Iterated(s: Bytes, n: nat): (r: Bytes)
    requires |s| == STATE_BYTES
    ensures |r| == STATE_BYTES
    decreases n
  {
    hide Permute;
    if n == 0 then s else Permute(Iterated(s, n - 1))
  }

  lemma {:induction false} IteratedFirst(s: Bytes, n: nat)
    requires |s| == STATE_BYTES
    ensures Iterated(Permute(s), n) == Iterated(s, n + 1)
    decreases n
  {
    hide Permute;
    if n > 0 { IteratedFirst(s, n - 1); }
  }

  lemma RawXorZero(v: bv8) ensures XorByte(v, 0) == v {}

  lemma AddedBlock(s: Bytes, m: Bytes, i: nat)
    requires |s| == STATE_BYTES && RATE * i + RATE <= |m|
    ensures AddRate(s, m[RATE * i], m[RATE * i + 1]) == XorBytes(s, BlockState(m, i))
  {
    hide XorByte, GetBit;
    forall k | 0 <= k < |s| ensures AddRate(s, m[RATE * i], m[RATE * i + 1])[k] == XorBytes(s, BlockState(m, i))[k] {
      RawXorZero(s[k]);
    }
  }

  lemma {:induction false} StageIsAbsorbed(m: Bytes, n: nat)
    requires RATE * n <= |m|
    ensures Stage(m, n) == Absorb(ZeroState(), m[..RATE * n])
  {
    hide Permute, XorBytes, BlockState, AddRate, ZeroState;
    if n == 0 {
      AbsorbNone(ZeroState());
    } else {
      StageIsAbsorbed(m, n - 1);
      AddedBlock(Stage(m, n - 1), m, n - 1);
      var a := m[..RATE * (n - 1)];
      assert a + [m[RATE * (n - 1)], m[RATE * (n - 1) + 1]] == m[..RATE * n];
      AbsorbConcat(ZeroState(), a, m[RATE * (n - 1)], m[RATE * (n - 1) + 1]);
    }
  }

  lemma {:induction false} SqueezedByte(s: Bytes, n: nat, k: nat)
    requires |s| == STATE_BYTES && k < n
    ensures Squeeze(s, n)[k] == Iterated(s, k / RATE)[k % RATE]
    decreases n
  {
    hide Permute;
    if k >= RATE {
      SqueezedByte(Permute(s), n - RATE, k - RATE);
      IteratedFirst(s, k / RATE - 1);
    }
  }

  // Output byte k is a byte of the rate after k / 2 permutations more than absorbing the padded input takes.
  lemma OutputByte(input: Bytes, n: nat, k: nat)
    requires k < n
    ensures var p := Padded(input);
            AbsorbSqueeze(input, n)[k] == Iterated(Stage(p, |p| / RATE), k / RATE)[k % RATE]
  {
    hide Absorb, Squeeze, Stage, Iterated, Padded;
    var p := Padded(input);
    assert p[..RATE * (|p| / RATE)] == p;
    StageIsAbsorbed(p, |p| / RATE);
    SqueezedByte(Absorb(ZeroState(), p), n, k);
  }

  // ---------- the in-place code ----------

  method AddToRate(state: array<bv8>, x: bv8, y: bv8)
    requires state.Length == STATE_BYTES
    modifies state
    ensures state[..] == AddRate(old(state[..]), x, y)
  {
    hide XorByte;
    state[0] := XorByte(state[0], x);
    state[1] := XorByte(state[1], y);
  }

  method AbsorbInput(table: PLayerTable, state: array<bv8>, input: Bytes)
    requires table.Valid() && state.Length == STATE_BYTES
    modifies state
    ensures state[..] == Absorb(old(state[..]), Padded(input))
  {
    hide Permute, AddRate, PLayerTable.Valid, Absorb;
    ghost var s := state[..];
    AbsorbNone(s);
    var offset := 0;
    while offset + RATE <= |input|
      invariant 0 <= offset <= |input| && offset % RATE == 0
      invariant state[..] == Absorb(s, input[..offset])
      invariant table.Valid()
      decreases |input| - offset
    {
      AbsorbConcat(s, input[..offset], input[offset], input[offset + 1]);
      assert input[..offset] + [input[offset], input[offset + 1]] == input[..offset + RATE];
      AddToRate(state, input[offset], input[offset + 1]);
      SpongentPermute(table, state);
      offset := offset + RATE;
    }
    var tail := new bv8[RATE](_ => 0);
    var remaining := |input| - offset;
    for i := 0 to remaining
      invariant forall k :: 0 <= k < i ==> tail[k] == input[offset + k]
      invariant forall k :: i <= k < RATE ==> tail[k] == 0
      invariant state[..] == Absorb(s, input[..offset]) && table.Valid()
    {
      tail[i] := input[offset + i];
    }
    tail[remaining] := 0x80;
    AbsorbConcat(s, input[..offset], tail[0], tail[1]);
    assert input[..offset] + [tail[0], tail[1]] == Padded(input);
    AddToRate(state, tail[0], tail[1]);
    SpongentPermute(table, state);
  }

  lemma AbsorbNone(s: Bytes)
    requires |s| == STATE_BYTES
    ensures Absorb(s, []) == s
  {}

  method SqueezeOutput(table: PLayerTable, state: array<bv8>, outLen: nat) returns (out: Bytes)
    requires table.Valid() && state.Length == STATE_BYTES
    modifies state
    ensures out == Squeeze(old(state[..]), outLen)
  {
    hide Permute, PLayerTable.Valid;
    out := [];
    ghost var s := state[..];
    while |out| < outLen
      invariant |out| <= outLen && table.Valid()
      invariant out + Squeeze(state[..], outLen - |out|) == Squeeze(s, outLen)
      decreases outLen - |out|
    {
      var take := if RATE < outLen - |out| then RATE else outLen - |out|;
      ghost var before, t := out, state[..];
      out := out + state[..take];
      assert Squeeze(t, outLen - |before|)
          == if outLen - |before| <= RATE then t[..take] else t[..take] + Squeeze(Permute(t), outLen - |out|);
      if |out| >= outLen {
        assert out + [] == out;
        break;
      }
      SpongentPermute(table, state);
      assert before + (t[..take] + Squeeze(Permute(t), outLen - |out|)) == out + Squeeze(Permute(t), outLen - |out|);
    }
  }

  method SpongeAbsorbSqueeze(table: PLayerTable, input: Bytes, outLen: nat) returns (out: Bytes)
    requires table.Valid()
    ensures out == AbsorbSqueeze(input, outLen)
  {
    hide PLayerTable.Valid, Absorb, Squeeze, Padded;
    var state := new bv8[STATE_BYTES](_ => 0);
    assert state[..] == ZeroState();
    AbsorbInput(table, state, input);
    out := SqueezeOutput(table, state, outLen);
  }
}
