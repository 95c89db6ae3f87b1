/**
 The migration check's view of a revision graph (scripts/validate-migrations.py,
 check_revision_chains), from the parsed files on: every revision names the revisions it comes after.
 */
module Revisions {
  import opened Finite

  type Rev = string

  /** revision -> its down_revisions. */
  type Graph = map<Rev, seq<Rev>>

  datatype Migration = Migration(rev: Rev, downs: seq<Rev>)

  // ---------------------------------------------------------------------------------------
  // The check
  // ---------------------------------------------------------------------------------------

  /** The first file of a revision counts. */
  function GraphOf(files: seq<Migration>): Graph {
    if files == [] then map[]
    else
      var g, f := GraphOf(files[..|files| - 1]), files[|files| - 1];
      if f.rev in g then g else g[f.rev := f.downs]
  }

  function Duplicates(files: seq<Migration>): nat {
    if files == [] then 0
    else Duplicates(files[..|files| - 1]) + if files[|files| - 1].rev in GraphOf(files[..|files| - 1]) then 1 else 0
  }

  /** The graph has the revisions of the files, each with what its first file refers to. */
  lemma {:induction false} GraphExactly(files: seq<Migration>, i: nat)
    requires i < |files|
    ensures files[i].rev in GraphOf(files)
    ensures (forall j :: 0 <= j < i ==> files[j].rev != files[i].rev) ==> GraphOf(files)[files[i].rev] == files[i].downs
  {
    var init := files[..|files| - 1];
    if i < |init| {
      GraphExactly(init, i);
    } else if files[i].rev in GraphOf(init) {
      var j := InFiles(init, files[i].rev);
      assert files[j].rev == files[i].rev;
    }
  }

  lemma {:induction false} InFiles(files: seq<Migration>, r: Rev) returns (i: nat)
    requires r in GraphOf(files)
    ensures i < |files| && files[i].rev == r
  {
    var n := |files| - 1;
    if files[n].rev == r {
      i := n;
    } else {
      i := InFiles(files[..n], r);
    }
  }

  predicate NoneRepeated(files: seq<Migration>) {
    forall i, j :: 0 <= i < j < |files| ==> files[i].rev != files[j].rev
  }

  lemma {:induction false} DuplicatesExactly(files: seq<Migration>)
    ensures Duplicates(files) == 0 <==> NoneRepeated(files)
  {
    if files != [] {
      var n := |files| - 1;
      var init := files[..n];
      DuplicatesExactly(init);
      if files[n].rev in GraphOf(init) {
        var i := InFiles(init, files[n].rev);
        assert files[i].rev == files[n].rev;
      } else {
        forall i | 0 <= i < n
          ensures files[i].rev != files[n].rev
        {
          GraphExactly(init, i);
        }
        assert forall i :: 0 <= i < n ==> files[i] == init[i];
      }
    }
  }

  predicate Refers(g: Graph, child: Rev, parent: Rev) { child in g && parent in g[child] }

  predicate RefsExist(g: Graph) { forall r :: r in g ==> forall i :: 0 <= i < |g[r]| ==> g[r][i] in g }

  ghost predicate Referenced(g: Graph, r: Rev) { exists c :: Refers(g, c, r) }

  ghost predicate Head(g: Graph, r: Rev) { r in g && !Referenced(g, r) }

  ghost predicate AtMostOneHead(g: Graph) { forall a, b :: Head(g, a) && Head(g, b) ==> a == b }

  /** What the check calls "chain intact". */
  ghost predicate Intact(g: Graph) { RefsExist(g) && AtMostOneHead(g) }

  method MissingRefs(g: Graph, downs: seq<Rev>) returns (missing: nat)
    ensures missing == 0 <==> forall i :: 0 <= i < |downs| ==> downs[i] in g
  {
    missing := 0;
    for i := 0 to |downs|
      invariant missing == 0 <==> forall j :: 0 <= j < i ==> downs[j] in g
    {
      if downs[i] !in g {
        missing := missing + 1;
      }
    }
  }

  function Elements(s: seq<Rev>): set<Rev> { set x | x in s }

  /** Walks the graph's revisions: how many references lead nowhere, and which revisions are referenced. */
  method WalkRefs(g: Graph) returns (missing: nat, referenced: set<Rev>)
    ensures missing == 0 <==> RefsExist(g)
    ensures forall r :: r in referenced <==> Referenced(g, r)
  {
    missing, referenced := 0, {};
    var rest := g.Keys;
    while rest != {}
      invariant rest <= g.Keys
      invariant missing == 0 <==> forall r :: r in g && r !in rest ==> forall i :: 0 <= i < |g[r]| ==> g[r][i] in g
      invariant forall r :: r in referenced <==> exists c :: c !in rest && Refers(g, c, r)
      decreases rest
    {
      var r :| r in rest;
      var m := MissingRefs(g, g[r]);
      ghost var before := referenced;
      missing, referenced := missing + m, referenced + Elements(g[r]);
      forall x
        ensures x in referenced <==> exists c :: c !in rest - {r} && Refers(g, c, x)
      {
        if x in Elements(g[r]) {
          assert Refers(g, r, x);
        }
      }
      rest := rest - {r};
    }
  }

  /** The reported errors, and whether the chain is called intact. */
  method CheckRevisionChains(files: seq<Migration>) returns (g: Graph, errors: nat, intact: bool)
    ensures g == GraphOf(files)
    ensures intact <==> Intact(g)
    ensures errors == 0 <==> intact && NoneRepeated(files)
  {
    g, errors := map[], 0;
    for i := 0 to |files|
      invariant g == GraphOf(files[..i]) && errors == Duplicates(files[..i])
    {
      assert files[..i + 1][..i] == files[..i];
      if files[i].rev in g {
        errors := errors + 1;
      } else {
        g := g[files[i].rev := files[i].downs];
      }
    }
    assert files[..|files|] == files;
    var missing, referenced := WalkRefs(g);
    var heads := g.Keys - referenced;
    HeadsCounted(g, heads);
    errors := errors + missing;
    if |heads| > 1 {
      errors := errors + 1;
      intact := false;
    } else {
      intact := missing == 0;
    }
    DuplicatesExactly(files);
  }

  lemma HeadsCounted(g: Graph, heads: set<Rev>)
    requires forall r :: r in heads <==> Head(g, r)
    ensures |heads| <= 1 <==> AtMostOneHead(g)
  {
    if |heads| <= 1 {
      forall a, b | Head(g, a) && Head(g, b)
        ensures a == b
      {
        assert |heads - {a}| == |heads| - 1;
        assert b != a ==> b in heads - {a};
      }
    } else {
      TwoMembers(heads);
    }
  }

  lemma TwoMembers(s: set<Rev>)
    requires |s| > 1
    ensures exists a, b :: a in s && b in s && a != b
  {
    var a :| a in s;
    assert |s - {a}| > 0;
    var b :| b in s - {a};
  }

  // ---------------------------------------------------------------------------------------
  // Paths
  // ---------------------------------------------------------------------------------------

  /** From child to parent, one reference a step. */
  predicate Path(g: Graph, p: seq<Rev>) {
    && p != [] && (forall i :: 0 <= i < |p| ==> p[i] in g)
    && forall i :: 0 <= i < |p| - 1 ==> Refers(g, p[i], p[i + 1])
  }

  predicate PathBetween(g: Graph, p: seq<Rev>, from: Rev, to: Rev) {
    Path(g, p) && p[0] == from && p[|p| - 1] == to
  }

  ghost predicate Reaches(g: Graph, from: Rev, to: Rev) { exists p :: PathBetween(g, p, from, to) }

  ghost predicate Cyclic(g: Graph) { exists p :: |p| >= 2 && Path(g, p) && p[0] == p[|p| - 1] }

  /** r is the only head, and the whole history hangs under it. */
  ghost predicate OnlyRoot(g: Graph, r: Rev) {
    && Head(g, r) && (forall h :: Head(g, h) ==> h == r)
    && forall x :: x in g ==> Reaches(g, r, x)
  }

  /** Revisions referenced only from among themselves: a history with no head of its own. */
  ghost predicate Island(g: Graph, s: set<Rev>) {
    && s != {} && (forall x :: x in s ==> x in g && Referenced(g, x))
    && forall c, x :: x in s && Refers(g, c, x) ==> c in s
  }

  lemma ReachesItself(g: Graph, r: Rev)
    requires r in g
    ensures Reaches(g, r, r)
  {
    assert PathBetween(g, [r], r, r);
  }

  lemma ReachesOn(g: Graph, from: Rev, c: Rev, r: Rev)
    requires Reaches(g, from, c) && Refers(g, c, r) && r in g
    ensures Reaches(g, from, r)
  {
    var p :| PathBetween(g, p, from, c);
    assert PathBetween(g, p + [r], from, r);
  }

  /** A path that ends on an island began there. */
  lemma {:induction false} StaysOnIsland(g: Graph, s: set<Rev>, p: seq<Rev>)
    requires Island(g, s) && Path(g, p) && p[|p| - 1] in s
    ensures p[0] in s
  {
    if |p| > 1 {
      var q := p[..|p| - 1];
      assert Refers(g, p[|p| - 2], p[|p| - 1]);
      StaysOnIsland(g, s, q);
    }
  }

  /** What no head reaches. */
  ghost function Unreached(g: Graph): set<Rev> {
    set x | x in g && forall h :: Head(g, h) ==> !Reaches(g, h, x)
  }

  lemma UnreachedIsIsland(g: Graph)
    requires RefsExist(g) && Unreached(g) != {}
    ensures Island(g, Unreached(g))
  {
    forall x | x in Unreached(g)
      ensures Referenced(g, x)
    {
      ReachesItself(g, x);
      assert !Head(g, x);
    }
    forall c, x | x in Unreached(g) && Refers(g, c, x)
      ensures c in Unreached(g)
    {
      forall h | Head(g, h)
        ensures !Reaches(g, h, c)
      {
        if Reaches(g, h, c) {
          ReachesOn(g, h, c, x);
        }
      }
    }
  }

  /**
   An intact graph has one head over its whole history exactly when no revisions are an island.
   */
  lemma IntactHasRootExactly(g: Graph)
    requires Intact(g) && g != map[]
    ensures (exists r :: OnlyRoot(g, r)) <==> !exists s :: Island(g, s)
  {
    if r :| OnlyRoot(g, r) {
      forall s | Island(g, s)
        ensures false
      {
        var x :| x in s;
        assert Reaches(g, r, x);
        var p :| PathBetween(g, p, r, x);
        StaysOnIsland(g, s, p);
      }
    }
    if !exists s :: Island(g, s) {
      if Unreached(g) != {} {
        UnreachedIsIsland(g);
      }
      var x :| x in g;
      assert x !in Unreached(g);
      var h :| Head(g, h) && Reaches(g, h, x);
      forall y | y in g
        ensures Reaches(g, h, y)
      {
        assert y !in Unreached(g);
      }
      assert OnlyRoot(g, h);
    }
  }

  // ---------------------------------------------------------------------------------------
  // Acyclic graphs have no islands
  // ---------------------------------------------------------------------------------------

  /** On an island one can go up as often as one likes. */
  lemma {:induction false} ClimbIsland(g: Graph, s: set<Rev>, n: nat) returns (p: seq<Rev>)
    requires Island(g, s)
    ensures Path(g, p) && |p| == n + 1 && forall i :: 0 <= i < |p| ==> p[i] in s
  {
    if n == 0 {
      var x :| x in s;
      p := [x];
    } else {
      var q := ClimbIsland(g, s, n - 1);
      assert Referenced(g, q[0]);
      var c :| Refers(g, c, q[0]);
      p := [c] + q;
    }
  }

  lemma PartOfPath(g: Graph, p: seq<Rev>, i: nat, n: nat)
    requires Path(g, p) && i < n <= |p|
    ensures Path(g, p[i..n])
  {
    var q := p[i..n];
    forall k | 0 <= k < |q| - 1
      ensures Refers(g, q[k], q[k + 1])
    {
      var m := i + k;
      assert Refers(g, p[m], p[m + 1]);
    }
  }

  /** A path that comes back to a revision holds a cycle. */
  lemma RepeatIsCyclic(g: Graph, p: seq<Rev>, i: nat, j: nat)
    requires Path(g, p) && i < j < |p| && p[i] == p[j]
    ensures Cyclic(g)
  {
    PartOfPath(g, p, i, j + 1);
    var loop := p[i..j + 1];
    assert |loop| >= 2 && loop[0] == loop[|loop| - 1];
  }

  lemma IslandIsCyclic(g: Graph, s: set<Rev>)
    requires Island(g, s)
    ensures Cyclic(g)
  {
    var p := ClimbIsland(g, s, |s|);
    Pigeonhole(p, s);
    var i, j :| 0 <= i < j < |p| && p[i] == p[j];
    RepeatIsCyclic(g, p, i, j);
  }

  /** "Chain intact" on an acyclic graph: one head, from which every revision is reached. */
  lemma IntactAcyclicHasRoot(g: Graph)
    requires Intact(g) && g != map[] && !Cyclic(g)
    ensures exists r :: OnlyRoot(g, r)
  {
    IntactHasRootExactly(g);
    if s :| Island(g, s) {
      IslandIsCyclic(g, s);
    }
  }

  // ---------------------------------------------------------------------------------------
  // One more revision
  // ---------------------------------------------------------------------------------------

  lemma NewRevisionUnreferenced(g: Graph, r: Rev, head: Rev, c: Rev)
    requires RefsExist(g) && r !in g && head in g
    ensures !Refers(g[r := [head]], c, r)
  {
  }

  lemma PathsOfMore(g: Graph, r: Rev, head: Rev, p: seq<Rev>)
    requires r !in g && Path(g, p)
    ensures Path(g[r := [head]], p)
  {
    forall i | 0 <= i < |p| - 1
      ensures Refers(g[r := [head]], p[i], p[i + 1])
    {
      assert Refers(g, p[i], p[i + 1]);
    }
  }

  lemma NewHeads(g: Graph, r: Rev, head: Rev, x: Rev)
    requires RefsExist(g) && OnlyRoot(g, head) && r !in g
    ensures Head(g[r := [head]], x) <==> x == r
  {
    var g' := g[r := [head]];
    if x == r {
      forall c
        ensures !Refers(g', c, r)
      {
        NewRevisionUnreferenced(g, r, head, c);
      }
    } else if x == head {
      assert Refers(g', r, head);
    } else if x in g {
      assert !Head(g, x);
      var c :| Refers(g, c, x);
      assert Refers(g', c, x);
    }
  }

  lemma NewPathsAvoid(g: Graph, r: Rev, head: Rev, p: seq<Rev>)
    requires RefsExist(g) && r !in g && head in g
    requires Path(g[r := [head]], p) && p[0] != r
    ensures Path(g, p)
  {
    var g' := g[r := [head]];
    forall i | 0 <= i < |p|
      ensures p[i] in g
    {
      if i > 0 {
        assert Refers(g', p[i - 1], p[i]);
        NewRevisionUnreferenced(g, r, head, p[i - 1]);
      }
    }
    forall i | 0 <= i < |p| - 1
      ensures Refers(g, p[i], p[i + 1])
    {
      assert Refers(g', p[i], p[i + 1]);
    }
  }

  lemma StaysAcyclic(g: Graph, r: Rev, head: Rev)
    requires RefsExist(g) && r !in g && head in g && !Cyclic(g)
    ensures !Cyclic(g[r := [head]])
  {
    var g' := g[r := [head]];
    forall p | |p| >= 2 && Path(g', p)
      ensures p[0] != p[|p| - 1]
    {
      assert Refers(g', p[|p| - 2], p[|p| - 1]);
      NewRevisionUnreferenced(g, r, head, p[|p| - 2]);
      if p[0] != r {
        NewPathsAvoid(g, r, head, p);
      }
    }
  }

  /** A new revision after the head keeps the graph intact and acyclic, and becomes the head. */
  lemma AddingAfterHeadKeeps(g: Graph, r: Rev, head: Rev)
    requires Intact(g) && !Cyclic(g) && OnlyRoot(g, head) && r !in g
    ensures Intact(g[r := [head]]) && !Cyclic(g[r := [head]]) && OnlyRoot(g[r := [head]], r)
  {
    var g' := g[r := [head]];
    StaysAcyclic(g, r, head);
    forall x
      ensures Head(g', x) <==> x == r
    {
      NewHeads(g, r, head, x);
    }
    forall x | x in g'
      ensures Reaches(g', r, x)
    {
      ReachesItself(g', r);
      if x != r {
        assert Reaches(g, head, x);
        var p :| PathBetween(g, p, head, x);
        PathsOfMore(g, r, head, p);
        assert PathBetween(g', [r] + p, r, x);
      }
    }
  }

  /** Two revisions that come after each other pass the check, and there is no head at all. */
  lemma CycleIsCalledIntact()
    ensures
      var g: Graph := map["a" := ["b"], "b" := ["a"]];
      Intact(g) && Cyclic(g) && forall r :: !Head(g, r)
  {
    var g: Graph := map["a" := ["b"], "b" := ["a"]];
    assert Refers(g, "a", "b") && Refers(g, "b", "a");
    assert Path(g, ["a", "b", "a"]);
  }
}
