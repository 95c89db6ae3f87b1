/** Counting in finite sets. */
module Finite {

  /** More places than values: some value is taken twice. */
  lemma {:induction false} Pigeonhole<T>(p: seq<T>, s: set<T>)
    requires |p| > |s| && forall i :: 0 <= i < |p| ==> p[i] in s
    ensures exists i, j :: 0 <= i < j < |p| && p[i] == p[j]
    decreases |s|
  {
    var last := |p| - 1;
    if i :| 0 <= i < last && p[i] == p[last] {
    } else {
      var q := p[..last];
      assert p[last] in s && |s - {p[last]}| == |s| - 1;
      forall i | 0 <= i < |q|
        ensures q[i] in s - {p[last]}
      {
        assert q[i] == p[i];
      }
      Pigeonhole(q, s - {p[last]});
      var i, j :| 0 <= i < j < |q| && q[i] == q[j];
      assert p[i] == p[j];
    }
  }
}
