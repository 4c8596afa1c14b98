/** Sets of ids read in ascending order, as the iterators of ordered containers do. */
module Ordered {

  /** A walk down from an element of the set ends at the least. */
  lemma HasLeast(s: set<nat>, x: nat)
    requires x in s
    ensures exists m :: m in s && forall y :: y in s ==> m <= y
    decreases x
  {
    if y :| y in s && y < x {
      HasLeast(s, y);
    }
  }

  function Least(s: set<nat>): (m: nat)
    requires s != {}
    ensures m in s && forall y :: y in s ==> m <= y
  {
    assert exists m :: m in s && forall y :: y in s ==> m <= y by {
      var x :| x in s;
      HasLeast(s, x);
    }
    var m :| m in s && forall y :: y in s ==> m <= y;
    m
  }

  function Ascending(s: set<nat>): (q: seq<nat>)
    ensures |q| == |s|
    ensures forall x :: x in q <==> x in s
    ensures forall i, j :: 0 <= i < j < |q| ==> q[i] < q[j]
    decreases |s|
  {
    if s == {} then [] else
      var m := Least(s);
      [m] + Ascending(s - {m})
  }

  predicate Distinct(q: seq<nat>) {
    forall i, j :: 0 <= i < j < |q| ==> q[i] != q[j]
  }

  lemma DistinctPush(q: seq<nat>, x: nat)
    requires Distinct(q) && x !in q
    ensures Distinct(q + [x])
  {
  }
}
