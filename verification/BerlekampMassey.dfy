// The Berlekamp-Massey iteration: its invariant and the three ways it can advance.
module BerlekampMassey {
  import opened Gf256
  import opened GfLog
  import opened Poly
  import opened Recurrence

  // The syndromes as a series.
  function Syndromes(syn: seq<Gf>): Series { k => if 0 <= k < |syn| then syn[k] else Zero }

  // State before iteration r: the connection polynomial lambda of length l, and the previous one (of length lp)
  // that failed m iterations ago with discrepancy b. Before the first failure nothing is recorded yet.
  ghost predicate State(lambda: seq<Gf>, l: nat, prev: seq<Gf>, lp: nat, m: nat, b: Gf, f: Series, r: nat) {
    && Generates(lambda, l, f, r)
    && l <= r
    && Shortest(l, f, r)
    && b != Zero
    && 1 <= |prev| <= lp + 1
    && prev[0] == One
    && lp + m == r + 1 - l
    && m >= 1
    && if m == r + 1 then l == 0 && lp == 0 else
         && m <= r
         && lp <= r - m
         && Conv(prev, f, r - m) == b
         && forall j :: lp <= j < r - m ==> Conv(prev, f, j) == Zero
  }

  // next = lambda + coeff * x^m * prev, as far as convolutions with f can tell.
  ghost predicate Corrected(next: seq<Gf>, lambda: seq<Gf>, coeff: Gf, prev: seq<Gf>, m: nat, f: Series) {
    forall j :: Conv(next, f, j) == Add(Conv(lambda, f, j), Mul(coeff, Conv(prev, f, j - m)))
  }

  lemma Initial(f: Series)
    ensures State([One], 0, [One], 0, 1, One, f, 0)
  {
    ZeroNotOne();
  }

  lemma LongerGenerates(c: seq<Gf>, l: nat, f: Series, r: nat)
    requires Generates(c, l, f, r + 1)
    ensures Generates(c, l, f, r)
  {}

  lemma ShortestGrows(l: nat, f: Series, r: nat)
    requires Shortest(l, f, r)
    ensures Shortest(l, f, r + 1)
  {
    hide Generates;
    var r1 := r + 1;
    forall c, l' | Generates(c, l', f, r1) ensures l <= l' { LongerGenerates(c, l', f, r); }
  }

  // Discrepancy zero.
  lemma Advance(lambda: seq<Gf>, l: nat, prev: seq<Gf>, lp: nat, m: nat, b: Gf, f: Series, r: nat)
    requires State(lambda, l, prev, lp, m, b, f, r) && Conv(lambda, f, r) == Zero
    ensures State(lambda, l, prev, lp, m + 1, b, f, r + 1)
  {
    hide Conv, Shortest;
    ShortestGrows(l, f, r);
  }

  lemma CorrectionGenerates(lambda: seq<Gf>, l: nat, prev: seq<Gf>, lp: nat, m: nat, b: Gf, f: Series, r: nat,
                            next: seq<Gf>, lnext: nat)
    requires State(lambda, l, prev, lp, m, b, f, r)
    requires Corrected(next, lambda, Mul(Conv(lambda, f, r), Inv(b)), prev, m, f)
    requires 1 <= |next| <= lnext + 1 && next[0] == One
    requires l <= lnext && lp + m <= lnext
    ensures Generates(next, lnext, f, r + 1)
  {
    hide Conv, Shortest, Mul, Add, Inv;
    if m <= r {
      CorrectedStep(lambda, l, prev, lp, m, b, next, lnext, f, r);
    }
  }

  // Discrepancy non-zero with 2l <= r: the recurrence must lengthen to r + 1 - l.
  lemma Lengthen(lambda: seq<Gf>, l: nat, prev: seq<Gf>, lp: nat, m: nat, b: Gf, f: Series, r: nat, next: seq<Gf>)
    requires State(lambda, l, prev, lp, m, b, f, r)
    requires Conv(lambda, f, r) != Zero && 2 * l <= r
    requires Corrected(next, lambda, Mul(Conv(lambda, f, r), Inv(b)), prev, m, f)
    requires 1 <= |next| <= r + 2 - l && next[0] == One
    ensures State(next, r + 1 - l, lambda, l, 1, Conv(lambda, f, r), f, r + 1)
  {
    hide Conv, Mul, Add, Inv, Corrected;
    CorrectionGenerates(lambda, l, prev, lp, m, b, f, r, next, r + 1 - l);
    var r1 := r + 1;
    forall c, l' | Generates(c, l', f, r1) ensures r + 1 - l <= l' {
      MasseyBound(lambda, l, c, l', f, r);
    }
  }

  // Discrepancy non-zero with 2l > r: corrected at the same length.
  lemma Adjust(lambda: seq<Gf>, l: nat, prev: seq<Gf>, lp: nat, m: nat, b: Gf, f: Series, r: nat, next: seq<Gf>)
    requires State(lambda, l, prev, lp, m, b, f, r)
    requires Conv(lambda, f, r) != Zero && 2 * l > r
    requires Corrected(next, lambda, Mul(Conv(lambda, f, r), Inv(b)), prev, m, f)
    requires 1 <= |next| <= l + 1 && next[0] == One
    ensures State(next, l, prev, lp, m + 1, b, f, r + 1)
  {
    hide Conv, Mul, Add, Inv, Corrected, Shortest;
    CorrectionGenerates(lambda, l, prev, lp, m, b, f, r, next, l);
    ShortestGrows(l, f, r);
  }
}
