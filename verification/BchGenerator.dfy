// The conjugate closure of alpha^1 .. alpha^2t and the generator polynomial.
module BchGenerator {
  import opened Wrappers
  import opened Gf256
  import opened GfLog
  import opened Poly
  import opened BchCode

  function Double(r: nat): nat { (2 * r) % 255 }

  // i * 2^j mod 255
  function Conjugate(i: nat, j: nat): nat {
    if j == 0 then i % 255 else Double(Conjugate(i, j - 1))
  }

  ghost predicate InClosure(t: nat, r: nat) {
    exists i: nat, j: nat :: Conjugate(i, j) == r && 1 <= i <= 2 * t
  }

  function Below(n: nat): (s: set<nat>)
    ensures forall r: nat :: r in s <==> r < n
    ensures |s| == n
  {
    if n == 0 then {} else Below(n - 1) + {n - 1}
  }

  // The exponents of the generator's roots.
  ghost function Closure(t: nat): set<nat> { set r | r in Below(255) && InClosure(t, r) }

  ghost predicate ClosedUnderDoubling(s: set<nat>) { forall r :: r in s ==> Double(r) in s }

  lemma ClosureMember(t: nat, i: nat, j: nat)
    requires 1 <= i <= 2 * t
    ensures Conjugate(i, j) in Closure(t)
  {
    hide Below;
  }

  lemma ClosureCloses(t: nat)
    ensures ClosedUnderDoubling(Closure(t))
  {
    hide Below;
    forall r | r in Closure(t) ensures Double(r) in Closure(t) {
      var i: nat, j: nat :| 1 <= i <= 2 * t && Conjugate(i, j) == r;
      assert Conjugate(i, j + 1) == Double(r);
    }
  }

  lemma {:induction false} ClosedContains(s: set<nat>, i: nat, j: nat)
    requires ClosedUnderDoubling(s) && i % 255 in s
    ensures Conjugate(i, j) in s
  {
    if j > 0 { ClosedContains(s, i, j - 1); }
  }

  // The closure is the least set that holds 1..2t and is closed under doubling.
  lemma ClosureLeast(t: nat, s: set<nat>)
    requires 2 * t < 255 && ClosedUnderDoubling(s) && forall i :: 1 <= i <= 2 * t ==> i in s
    ensures Closure(t) <= s
  {
    hide Below, Double;
    forall r | r in Closure(t) ensures r in s {
      var i: nat, j: nat :| Conjugate(i, j) == r && 1 <= i <= 2 * t;
      ClosedContains(s, i, j);
    }
  }

  lemma DoubleNonZero(r: nat)
    requires 1 <= r < 255
    ensures 1 <= Double(r) < 255
  {}

  lemma {:induction false} ConjugateNonZero(i: nat, j: nat)
    requires 1 <= i < 255
    ensures 1 <= Conjugate(i, j) < 255
  {
    if j > 0 { ConjugateNonZero(i, j - 1); DoubleNonZero(Conjugate(i, j - 1)); }
  }

  // Exponent 0 is never a root, so some message bits always remain.
  lemma ClosureSize(t: nat)
    requires 1 <= t <= 30
    ensures 0 !in Closure(t) && 1 <= |Closure(t)| <= 254
  {
    hide Below;
    forall r | r in Closure(t) ensures r != 0 {
      var i: nat, j: nat :| Conjugate(i, j) == r && 1 <= i <= 2 * t;
      ConjugateNonZero(i, j);
    }
    SubsetSize(Closure(t), Below(255) - {0});
    ClosureMember(t, 1, 0);
    SubsetSize({Conjugate(1, 0)}, Closure(t));
  }

  lemma SubsetSize<T>(a: set<T>, b: set<T>)
    requires a <= b
    ensures |a| <= |b|
  {
    var c := b - a;
    assert b == a + c;
    assert |b| == |a| + |c|;
  }

  // The members of s below n, smallest first: the order in which an ordered set is traversed.
  function Ascending(s: set<nat>, n: nat): seq<nat> {
    if n == 0 then [] else if n - 1 in s then Ascending(s, n - 1) + [n - 1] else Ascending(s, n - 1)
  }

  ghost predicate Listing(l: seq<nat>, s: set<nat>, n: nat) {
    && (forall k :: 0 <= k < |l| ==> l[k] < n && l[k] in s)
    && (forall k, m :: 0 <= k < m < |l| ==> l[k] < l[m])
    && (forall r :: 0 <= r < n && r in s ==> r in l)
  }

  lemma {:induction false} AscendingSorted(s: set<nat>, n: nat)
    ensures Listing(Ascending(s, n), s, n)
  {
    if n > 0 { AscendingSorted(s, n - 1); }
  }

  lemma MeetNext(s: set<nat>, a: set<nat>, x: nat)
    requires x !in a
    ensures |s * (a + {x})| == |s * a| + if x in s then 1 else 0
  {
    if x in s {
      assert s * (a + {x}) == s * a + {x};
    } else {
      assert s * (a + {x}) == s * a;
    }
  }

  lemma {:induction false} AscendingSize(s: set<nat>, n: nat)
    ensures |Ascending(s, n)| == |s * Below(n)|
  {
    if n == 0 {
      assert s * Below(0) == {};
    } else {
      AscendingSize(s, n - 1);
      MeetNext(s, Below(n - 1), n - 1);
    }
  }

  function AlphaPowers(l: seq<nat>): (xs: seq<Gf>)
    ensures |xs| == |l| && forall i :: 0 <= i < |l| ==> xs[i] == Pow(Alpha, l[i])
  {
    seq(|l|, i requires 0 <= i < |l| => Pow(Alpha, l[i]))
  }

  // The generator's roots, in the order the product is taken.
  ghost function Roots(t: nat): seq<Gf> { AlphaPowers(Ascending(Closure(t), 255)) }

  // For a set of exponents closed under doubling, listed in any order, the product is binary, has the degree of the
  // set's size, and vanishes at exactly the listed powers of alpha.
  lemma ExponentProductBinary(l: seq<nat>)
    requires forall i, j :: 0 <= i < j < |l| ==> l[i] != l[j]
    requires forall i :: 0 <= i < |l| ==> l[i] < 255 && Double(l[i]) in l
    ensures Binary(Product(AlphaPowers(l))) && |Product(AlphaPowers(l))| == |l| + 1
    ensures forall x :: Eval(Product(AlphaPowers(l)), x) == Zero <==> x in AlphaPowers(l)
  {
    hide *;
    PowersClosed(l);
    AlphaPowersDistinct(l);
    ProductBinary(AlphaPowers(l));
    forall x ensures Eval(Product(AlphaPowers(l)), x) == Zero <==> x in AlphaPowers(l) {
      ProductRoot(AlphaPowers(l), x);
    }
  }

  lemma PowersClosed(l: seq<nat>)
    requires forall i :: 0 <= i < |l| ==> l[i] < 255 && Double(l[i]) in l
    ensures ClosedUnderSquaring(AlphaPowers(l))
    ensures forall i :: 0 <= i < |l| ==> AlphaPowers(l)[i] != Zero
  {
    hide Mul, Pow;
    var xs := AlphaPowers(l);
    forall i | 0 <= i < |xs| ensures xs[i] != Zero && Mul(xs[i], xs[i]) in xs {
      PowNonZero(l[i]);
      SquarePow(l[i]);
      PowMod(2 * l[i]);
      var k :| 0 <= k < |l| && l[k] == Double(l[i]);
      assert xs[k] == Mul(xs[i], xs[i]);
    }
  }

  lemma AlphaPowersDistinct(l: seq<nat>)
    requires forall i, j :: 0 <= i < j < |l| ==> l[i] != l[j]
    requires forall i :: 0 <= i < |l| ==> l[i] < 255
    ensures Distinct(AlphaPowers(l))
  {
    hide Pow;
    var xs := AlphaPowers(l);
    forall i, j | 0 <= i < j < |xs| ensures xs[i] != xs[j] {
      if xs[i] == xs[j] { PowInjective(l[i], l[j]); }
    }
  }

  lemma ClosureListing(t: nat)
    ensures |Ascending(Closure(t), 255)| == |Closure(t)|
  {
    hide InClosure, Below, Ascending;
    AscendingSize(Closure(t), 255);
    assert Closure(t) * Below(255) == Closure(t);
  }

  lemma RootsNonZero(t: nat)
    ensures forall i :: 0 <= i < |Roots(t)| ==> Roots(t)[i] != Zero
  {
    hide Pow, Closure, Ascending;
    var l := Ascending(Closure(t), 255);
    AscendingSorted(Closure(t), 255);
    forall i | 0 <= i < |l| ensures Roots(t)[i] != Zero { PowNonZero(l[i]); }
  }

  lemma RootsBinary(t: nat)
    ensures Binary(Product(Roots(t)))
  {
    hide Product, Binary, Pow, Closure, Ascending;
    ClosureCloses(t);
    AscendingSorted(Closure(t), 255);
    ExponentProductBinary(Ascending(Closure(t), 255));
  }

  lemma DesignedRoot(t: nat, j: nat)
    requires 1 <= j <= 2 * t < 255
    ensures Pow(Alpha, j) in Roots(t)
  {
    hide Pow, Closure, Ascending;
    ClosureMember(t, j, 0);
    var l := Ascending(Closure(t), 255);
    AscendingSorted(Closure(t), 255);
    assert Conjugate(j, 0) == j;
    var k :| 0 <= k < |l| && l[k] == j;
    assert Roots(t)[k] == Pow(Alpha, j);
  }

  lemma RootsProperties(t: nat)
    requires 1 <= t <= 30
    ensures |Roots(t)| == |Closure(t)|
    ensures Distinct(Roots(t))
    ensures forall i :: 0 <= i < |Roots(t)| ==> Roots(t)[i] != Zero
    ensures forall j :: 1 <= j <= 2 * t ==> Pow(Alpha, j) in Roots(t)
    ensures Binary(Product(Roots(t)))
  {
    hide *;
    ClosureListing(t);
    RootsDistinct(t);
    RootsNonZero(t);
    RootsBinary(t);
    forall j | 1 <= j <= 2 * t ensures Pow(Alpha, j) in Roots(t) { DesignedRoot(t, j); }
    RootsLength(t);
  }

  lemma RootsLength(t: nat) ensures |Roots(t)| == |Ascending(Closure(t), 255)| {}

  lemma RootsDistinct(t: nat) ensures Distinct(Roots(t))
  {
    hide Pow, Closure, Ascending, Distinct;
    AscendingSorted(Closure(t), 255);
    AlphaPowersDistinct(Ascending(Closure(t), 255));
  }

  // Every root is a power of alpha^j by repeated squaring, for some designed j.
  lemma {:induction false} RootIsConjugate(i: nat, j: nat)
    ensures Pow(Alpha, Conjugate(i, j)) == Pow(Pow(Alpha, i), TwoTo(j))
  {
    hide Mul, Pow;
    if j == 0 { PowMod(i); PowBase(Pow(Alpha, i)); } else {
      RootIsConjugate(i, j - 1);
      var c := Conjugate(i, j - 1);
      PowMod(2 * c);
      SquarePow(c);
      PowAdd(Pow(Alpha, i), TwoTo(j - 1), TwoTo(j - 1));
    }
  }

  // g, highest coefficient first, is the binary polynomial with exactly the closure's roots.
  ghost predicate IsGenerator(g: seq<bool>, t: nat) {
    P(g) == Product(Roots(t))
  }

  lemma GeneratorShape(g: seq<bool>, t: nat)
    requires 1 <= t <= 30 && IsGenerator(g, t)
    ensures |g| == |Closure(t)| + 1 && g[0]
  {
    hide Product;
    RootsProperties(t);
    var p := Product(Roots(t));
    assert P(g)[0] == One;
    ZeroNotOne();
  }

  lemma GeneratorVanishes(g: seq<bool>, t: nat, j: nat)
    requires 1 <= t <= 30 && IsGenerator(g, t) && 1 <= j <= 2 * t
    ensures Eval(P(g), Pow(Alpha, j)) == Zero
  {
    hide Product, Pow, Eval;
    RootsProperties(t);
    ProductRoot(Roots(t), Pow(Alpha, j));
  }
}
