// The bounded replay cache, and the sliding window over the accepted nonces that it refines.
module ReplayCache {
  // The last n elements, or all of them if there are fewer.
  function Last<T>(s: seq<T>, n: nat): (r: seq<T>)
    ensures |r| == if |s| <= n then |s| else n
  {
    if |s| <= n then s else s[|s| - n..]
  }

  // The nonces accepted over a run of offers: a nonce is refused while it is among the last
  // `capacity` accepted ones, and accepted otherwise.
  function History<T(==)>(offers: seq<T>, capacity: nat): seq<T> {
    if |offers| == 0 then [] else
      var h := History(offers[..|offers| - 1], capacity);
      var nonce := offers[|offers| - 1];
      if nonce in Last(h, capacity) then h else h + [nonce]
  }

  function Elements<T>(s: seq<T>): set<T> { set x | x in s }

  predicate Distinct<T(==)>(s: seq<T>) {
    forall i, j :: 0 <= i < j < |s| ==> s[i] != s[j]
  }

  // Equal nonces are more than `capacity` places apart.
  predicate Spaced<T(==)>(s: seq<T>, capacity: nat) {
    forall i, j :: 0 <= i < j < |s| && s[i] == s[j] ==> j - i > capacity
  }

  lemma InLast<T>(s: seq<T>, n: nat, i: nat)
    requires |s| - n <= i < |s|
    ensures s[i] in Last(s, n)
  {
    if |s| > n { assert Last(s, n)[i - (|s| - n)] == s[i]; }
  }

  lemma {:induction false} HistorySpaced<T>(offers: seq<T>, capacity: nat)
    ensures Spaced(History(offers, capacity), capacity)
  {
    if |offers| > 0 {
      var h := History(offers[..|offers| - 1], capacity);
      var nonce := offers[|offers| - 1];
      HistorySpaced(offers[..|offers| - 1], capacity);
      if nonce !in Last(h, capacity) {
        forall i | 0 <= i < |h| && h[i] == nonce ensures |h| - i > capacity {
          if |h| - i <= capacity { InLast(h, capacity, i); }
        }
      }
    }
  }

  lemma LastDistinct<T>(s: seq<T>, capacity: nat)
    requires Spaced(s, capacity)
    ensures Distinct(Last(s, capacity))
  {}

  lemma ElementsSnoc<T>(s: seq<T>, x: T)
    ensures Elements(s + [x]) == Elements(s) + {x}
  {}

  lemma ElementsCons<T>(x: T, s: seq<T>)
    ensures Elements([x] + s) == {x} + Elements(s)
  {}

  // The elements of a sequence without repetitions are as many as its places.
  lemma {:induction false} DistinctSize<T>(s: seq<T>)
    requires Distinct(s)
    ensures |Elements(s)| == |s|
  {
    if |s| == 0 {
      assert Elements(s) == {};
    } else {
      var t, x := s[..|s| - 1], s[|s| - 1];
      DistinctSize(t);
      assert s == t + [x];
      ElementsSnoc(t, x);
      assert x !in Elements(t);
      hide Elements;
    }
  }

  // A nonce accepted twice has at least `capacity` different other nonces accepted in between.
  lemma AcceptedTwice<T>(offers: seq<T>, capacity: nat, i: nat, j: nat)
    requires i < j < |History(offers, capacity)|
    requires History(offers, capacity)[i] == History(offers, capacity)[j]
    ensures |Elements(History(offers, capacity)[i + 1..j]) - {History(offers, capacity)[i]}| >= capacity
  {
    hide History;
    var h := History(offers, capacity);
    HistorySpaced(offers, capacity);
    assert j - i > capacity;
    var w := h[i + 1..i + 1 + capacity];
    assert forall k :: 0 <= k < |w| ==> w[k] == h[i + 1 + k] && w[k] != h[i];
    assert Distinct(w);
    DistinctSize(w);
    var between := Elements(h[i + 1..j]);
    forall x | x in w ensures x in between - {h[i]} {
      var k :| 0 <= k < |w| && w[k] == x;
      assert h[i + 1..j][k] == x;
    }
    SubsetSize(Elements(w), between - {h[i]});
  }

  lemma {:induction false} SubsetSize<T>(a: set<T>, b: set<T>)
    requires a <= b
    ensures |a| <= |b|
  {
    if a != {} {
      var x :| x in a;
      SubsetSize(a - {x}, b - {x});
    }
  }

  lemma HistorySnoc<T>(offers: seq<T>, nonce: T, capacity: nat)
    ensures var h := History(offers, capacity);
            History(offers + [nonce], capacity) == if nonce in Last(h, capacity) then h else h + [nonce]
  {
    assert (offers + [nonce])[..|offers|] == offers;
  }

  lemma ElementsOf<T>(s: seq<T>, x: T)
    ensures x in Elements(s) <==> x in s
  {}

  lemma LastSnoc<T>(h: seq<T>, x: T, n: nat)
    ensures Last(Last(h, n) + [x], n) == Last(h + [x], n)
  {}

  // Dropping the front of a queue without repetitions removes just that element.
  lemma ElementsTail<T>(q: seq<T>, x: T)
    requires Distinct(q) && x !in q
    ensures Elements((q + [x])[1..]) == Elements(q + [x]) - {(q + [x])[0]}
  {
    var full := q + [x];
    assert full == [full[0]] + full[1..];
    ElementsCons(full[0], full[1..]);
    assert full[0] !in full[1..];
  }

  class ReplayCache<T(==)> {
    const capacity: nat
    var hits: nat
    var seen: set<T>
    var order: seq<T>

    // Every nonce offered since construction or the last clear.
    ghost var offers: seq<T>

    // Set and queue hold the same, distinct nonces: the last `capacity` accepted ones.
    ghost predicate Valid()
      reads this
    {
      && order == Last(History(offers, capacity), capacity)
      && seen == Elements(order)
      && Distinct(order)
      && |order| <= capacity
      && hits + |History(offers, capacity)| == |offers|
    }

    constructor (capacity: nat)
      ensures Valid() && this.capacity == capacity && offers == [] && order == [] && hits == 0
    {
      this.capacity := capacity;
      hits, seen, order, offers := 0, {}, [], [];
    }

    // True, recording the nonce, exactly when it is not among the last `capacity` accepted ones.
    method Offer(nonce: T) returns (ok: bool)
      requires Valid()
      modifies this
      ensures Valid() && offers == old(offers) + [nonce]
      ensures ok <==> nonce !in Last(History(old(offers), capacity), capacity)
      ensures ok <==> nonce !in old(order)
      ensures order == if ok then Last(old(order) + [nonce], capacity) else old(order)
      ensures hits == if ok then old(hits) else old(hits) + 1
    {
      hide History, Elements, Spaced;
      ghost var h, before := History(offers, capacity), order;
      HistorySnoc(offers, nonce, capacity);
      HistorySpaced(offers + [nonce], capacity);
      LastDistinct(History(offers + [nonce], capacity), capacity);
      offers := offers + [nonce];
      ElementsOf(order, nonce);
      if nonce in seen {
        hits := hits + 1;
        return false;
      }
      ElementsSnoc(order, nonce);
      LastSnoc(h, nonce, capacity);
      seen := seen + {nonce};
      order := order + [nonce];
      if |order| > capacity {
        ElementsTail(before, nonce);
        seen := seen - {order[0]};
        order := order[1..];
      }
      ok := true;
    }

    method Clear()
      modifies this
      ensures Valid() && offers == [] && order == [] && hits == 0
    {
      seen, order, hits, offers := {}, [], 0, [];
    }
  }
}
