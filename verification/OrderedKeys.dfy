// The ascending order in which an ordered map is iterated.
module OrderedKeys {
  predicate IsLeast(m: int, s: set<int>) { m in s && forall x :: x in s ==> m <= x }

  lemma LeastOfMore(s: set<int>, y: int, m: int)
    requires y in s && IsLeast(m, s - {y})
    ensures IsLeast(if y < m then y else m, s)
  {
    var l := if y < m then y else m;
    forall x | x in s ensures l <= x { if x != y { assert x in s - {y}; } }
  }

  lemma {:induction false} LeastExists(s: set<int>)
    requires s != {}
    ensures exists m :: IsLeast(m, s)
  {
    if forall y :: y !in s { assert false; }
    var y :| y in s;
    var t := s - {y};
    if t == {} {
      assert forall x :: x in s ==> x == y || x in t;
      assert IsLeast(y, s);
    } else {
      LeastExists(t);
      var m :| IsLeast(m, t);
      LeastOfMore(s, y, m);
    }
  }

  function Least(s: set<int>): (m: int)
    requires s != {}
    ensures IsLeast(m, s)
  {
    LeastExists(s);
    var m :| IsLeast(m, s);
    m
  }

  function Ascending(s: set<int>): (r: seq<int>)
    ensures forall x :: x in r <==> x in s
    ensures forall i, j :: 0 <= i < j < |r| ==> r[i] < r[j]
    ensures |r| == |s|
    decreases s
  {
    if s == {} then [] else
      var m := Least(s);
      [m] + Ascending(s - {m})
  }
}
