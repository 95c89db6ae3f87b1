/** Python's sorted() on a set of integers. */
module Ordering {

  predicate Ascending(s: seq<int>) {
    forall i, j :: 0 <= i < j < |s| ==> s[i] < s[j]
  }

  ghost predicate Lists(q: seq<int>, s: set<int>) {
    forall k :: k in q <==> k in s
  }

  lemma MemberExists(s: set<int>)
    ensures s == {} || exists x :: x in s
  {
    if !exists x :: x in s {
      assert forall x :: x in s <==> x in {};
      assert s == {};
    }
  }

  method Sorted(s: set<int>) returns (q: seq<int>)
    ensures Ascending(q)
    ensures Lists(q, s)
    ensures s == {} ==> q == []
  {
    q := [];
    var rest := s;
    while rest != {}
      decreases rest
      invariant Ascending(q)
      invariant Lists(q, s - rest) && rest <= s
      invariant s == {} ==> q == []
    {
      MemberExists(rest);
      var x :| x in rest;
      q := Insert(q, x);
      rest := rest - {x};
    }
  }

  method Insert(q: seq<int>, x: int) returns (r: seq<int>)
    requires Ascending(q) && x !in q
    ensures Ascending(r)
    ensures forall k :: k in r <==> k in q || k == x
  {
    var i := 0;
    while i < |q| && q[i] < x
      invariant i <= |q| && forall j :: 0 <= j < i ==> q[j] < x
    {
      i := i + 1;
    }
    assert i < |q| ==> q[i] in q;
    r := q[..i] + [x] + q[i..];
  }
}
