/**
 Token substitution in texts (services/inference-service/services/guardrail.py, _unmask): replacing
 the tokens of a table one after the other, and what it does to the text around them.
 */
module Guardrail {
  import opened Sequences
  import opened Texts

  // ---------------------------------------------------------------------------------------
  // str.replace
  // ---------------------------------------------------------------------------------------

  /** Left to right, without rescanning what was put in. */
  function Replace(s: string, t: string, o: string): string
    requires t != ""
  {
    if s == "" then ""
    else if t <= s then o + Replace(s[|t|..], t, o)
    else [s[0]] + Replace(s[1..], t, o)
  }

  ghost predicate Contains(s: string, t: string) { exists i: nat :: OccursAt(s, t, i) }

  /** A token: one '<' at its start, one '>' at its end. */
  predicate Delimited(t: string) {
    && |t| >= 2 && t[0] == '<' && t[|t| - 1] == '>'
    && forall i :: 0 < i < |t| - 1 ==> t[i] != '<' && t[i] != '>'
  }

  lemma {:induction false} NothingToReplace(s: string, t: string, o: string)
    requires t != "" && !Contains(s, t)
    ensures Replace(s, t, o) == s
  {
    if s != "" {
      assert s[0..] == s && !OccursAt(s, t, 0);
      forall i: nat
        ensures !OccursAt(s[1..], t, i)
      {
        assert i <= |s[1..]| ==> s[1..][i..] == s[i + 1..];
        assert !OccursAt(s, t, i + 1);
      }
      NothingToReplace(s[1..], t, o);
    }
  }

  lemma SkipsOne(c: char, s: string, t: string, o: string)
    requires Delimited(t) && c != '<'
    ensures Replace([c] + s, t, o) == [c] + Replace(s, t, o)
  {
    var all := [c] + s;
    assert all[0] != t[0] && all[1..] == s;
  }

  /** The rest of a token holds no '<', so nothing starts there. */
  lemma {:induction false} SkipsPlain(p: string, s: string, t: string, o: string)
    requires Delimited(t) && forall i :: 0 <= i < |p| ==> p[i] != '<'
    ensures Replace(p + s, t, o) == p + Replace(s, t, o)
  {
    if p == "" {
      assert p + s == s;
    } else {
      SkipsPlain(p[1..], s, t, o);
      SkipsOne(p[0], p[1..] + s, t, o);
      assert p + s == [p[0]] + (p[1..] + s);
      assert p == [p[0]] + p[1..];
      Associates([p[0]], p[1..], Replace(s, t, o));
    }
  }

  lemma SameToken(t: string, u: string, s: string)
    requires Delimited(t) && Delimited(u) && t <= u + s
    ensures t == u
  {
    assert forall i :: 0 <= i < |t| ==> t[i] == (u + s)[i];
    assert forall i :: 0 <= i < |u| ==> u[i] == (u + s)[i];
    assert |t| == |u|;
  }

  function Put(u: string, t: string, o: string): string { if u == t then o else u }

  lemma ReplaceToken(u: string, s: string, t: string, o: string)
    requires Delimited(t) && Delimited(u)
    ensures Replace(u + s, t, o) == Put(u, t, o) + Replace(s, t, o)
  {
    if u == t {
      assert (u + s)[|t|..] == s;
    } else {
      if t <= u + s {
        SameToken(t, u, s);
      }
      SkipsPlain(u[1..], s, t, o);
      assert (u + s)[1..] == u[1..] + s;
    }
  }

  /** An occurrence never crosses into the next token: a '<' stands only at its start. */
  lemma EndsBeforeToken(x: string, w: string, t: string)
    requires Delimited(t) && x != "" && w != "" && w[0] == '<'
    ensures t <= x + w <==> t <= x
  {
    assert (x + w)[|x|] == '<' && x == (x + w)[..|x|];
    if t <= x + w {
      assert forall i :: 0 <= i < |t| ==> t[i] == (x + w)[i];
      assert |t| <= |x|;
    }
  }

  lemma ReplaceStep(x: string, w: string, t: string, o: string, n: nat, put: string)
    requires t != "" && x != ""
    requires t <= x + w <==> t <= x
    requires if t <= x then n == |t| && put == o else n == 1 && put == [x[0]]
    ensures Replace(x + w, t, o) == put + Replace(x[n..] + w, t, o)
    ensures Replace(x, t, o) == put + Replace(x[n..], t, o)
  {
    assert (x + w)[n..] == x[n..] + w;
  }

  /** Replacing in a text up to a token and from it on are separate. */
  lemma {:induction false} ReplaceSplits(x: string, w: string, t: string, o: string)
    requires Delimited(t) && w != "" && w[0] == '<'
    ensures Replace(x + w, t, o) == Replace(x, t, o) + Replace(w, t, o)
    decreases |x|
  {
    if x == "" {
      assert x + w == w;
    } else {
      EndsBeforeToken(x, w, t);
      var n, put := if t <= x then |t| else 1, if t <= x then o else [x[0]];
      ReplaceStep(x, w, t, o, n, put);
      ReplaceSplits(x[n..], w, t, o);
      Associates(put, Replace(x[n..], t, o), Replace(w, t, o));
    }
  }

  /** Replacing in a text around a token works on each side separately. */
  lemma ReplaceAround(x: string, u: string, s: string, t: string, o: string)
    requires Delimited(t) && Delimited(u)
    ensures Replace(x + (u + s), t, o) == Replace(x, t, o) + (Put(u, t, o) + Replace(s, t, o))
  {
    ReplaceToken(u, s, t, o);
    ReplaceSplits(x, u + s, t, o);
  }

  // ---------------------------------------------------------------------------------------
  // Texts with tokens in them
  // ---------------------------------------------------------------------------------------

  /** Stretches of text with a token between each two. */
  datatype Masked = End(run: string) | Node(run: string, token: string, rest: Masked)

  function Render(m: Masked): string {
    match m
    case End(x) => x
    case Node(x, u, r) => x + (u + Render(r))
  }

  function Prepend(p: string, m: Masked): Masked {
    match m
    case End(x) => End(p + x)
    case Node(x, u, r) => Node(p + x, u, r)
  }

  lemma RenderPrepend(p: string, m: Masked)
    ensures Render(Prepend(p, m)) == p + Render(m)
  {
    if m.Node? {
      assert p + m.run + (m.token + Render(m.rest)) == p + Render(m);
    }
  }

  predicate AllDelimited(m: Masked) { m.Node? ==> Delimited(m.token) && AllDelimited(m.rest) }

  type Table = map<string, string>

  function Value(table: Table, u: string): string { if u in table then table[u] else u }

  /** Every token replaced at once; tokens the table does not know stay. */
  function Restore(m: Masked, table: Table): string {
    match m
    case End(x) => x
    case Node(x, u, r) => x + (Value(table, u) + Restore(r, table))
  }

  /** The text after one str.replace, its tokens still told apart from what surrounds them. */
  function Substitute(m: Masked, t: string, o: string): Masked
    requires t != ""
  {
    match m
    case End(x) => End(Replace(x, t, o))
    case Node(x, u, r) =>
      if u == t then Prepend(Replace(x, t, o) + o, Substitute(r, t, o))
      else Node(Replace(x, t, o), u, Substitute(r, t, o))
  }

  lemma RestorePrepend(p: string, m: Masked, table: Table)
    ensures Restore(Prepend(p, m), table) == p + Restore(m, table)
  {
    if m.Node? {
      assert p + m.run + (Value(table, m.token) + Restore(m.rest, table)) == p + Restore(m, table);
    }
  }

  /** One str.replace over the whole text is one over each stretch, and the token's value for each token. */
  lemma {:induction false} ReplaceIsSubstitute(m: Masked, t: string, o: string)
    requires AllDelimited(m) && Delimited(t)
    ensures Replace(Render(m), t, o) == Render(Substitute(m, t, o))
  {
    if m.Node? {
      var x, r := Replace(m.run, t, o), Substitute(m.rest, t, o);
      ReplaceIsSubstitute(m.rest, t, o);
      ReplaceAround(m.run, m.token, Render(m.rest), t, o);
      RenderPrepend(x + o, r);
      Associates(x, o, Render(r));
    }
  }

  lemma PartsContainNothing(a: string, b: string, c: string, t: string)
    requires !Contains(a + (b + c), t) && t != ""
    ensures !Contains(a, t) && !Contains(c, t)
  {
    var w := a + (b + c);
    forall i: nat
      ensures !OccursAt(a, t, i)
    {
      assert !OccursAt(w, t, i);
      assert i <= |a| ==> w[i..] == a[i..] + (b + c);
    }
    forall i: nat
      ensures !OccursAt(c, t, i)
    {
      assert !OccursAt(w, t, |a + b| + i);
      assert i <= |c| ==> w[|a + b| + i..] == c[i..];
    }
  }

  /** When the restored text shows no t, every t in the text is one of its tokens. */
  lemma {:induction false} SubstituteKeepsRestore(m: Masked, table: Table, t: string)
    requires t in table && t != "" && !Contains(Restore(m, table), t)
    ensures Restore(Substitute(m, t, table[t]), table) == Restore(m, table)
  {
    match m {
      case End(x) =>
        NothingToReplace(x, t, table[t]);
      case Node(x, u, r) =>
        var o := table[t];
        PartsContainNothing(x, Value(table, u), Restore(r, table), t);
        NothingToReplace(x, t, o);
        SubstituteKeepsRestore(r, table, t);
        RestorePrepend(x + o, Substitute(r, t, o), table);
        Associates(x, o, Restore(r, table));
    }
  }

  predicate Pending(m: Masked, t: string) { m.Node? && (m.token == t || Pending(m.rest, t)) }

  lemma {:induction false} SubstituteKeeps(m: Masked, t: string, o: string, u: string)
    requires AllDelimited(m) && t != ""
    ensures AllDelimited(Substitute(m, t, o))
    ensures Pending(Substitute(m, t, o), u) <==> Pending(m, u) && u != t
  {
    if m.Node? {
      SubstituteKeeps(m.rest, t, o, u);
    }
  }

  lemma {:induction false} NothingPending(m: Masked, table: Table)
    requires forall t :: t in table ==> !Pending(m, t)
    ensures Render(m) == Restore(m, table)
  {
    if m.Node? {
      assert Pending(m, m.token);
      forall t | t in table
        ensures !Pending(m.rest, t)
      {
        assert !Pending(m, t);
      }
      NothingPending(m.rest, table);
    }
  }

  // ---------------------------------------------------------------------------------------
  // Unmasking
  // ---------------------------------------------------------------------------------------

  predicate Tokens(table: Table) { forall t :: t in table ==> Delimited(t) }

  /** The order a dict of these keys is iterated in; any order of the keys is one. */
  predicate OrderOf(order: seq<string>, table: Table) {
    && (forall i :: 0 <= i < |order| ==> order[i] in table)
    && (forall t :: t in table ==> t in order)
  }

  /** The text after the first n replacements. */
  function UnmaskedBy(text: string, table: Table, order: seq<string>, n: nat): string
    requires Tokens(table) && n <= |order| && forall i :: 0 <= i < |order| ==> order[i] in table
  {
    if n == 0 then text else Replace(UnmaskedBy(text, table, order, n - 1), order[n - 1], table[order[n - 1]])
  }

  /** _unmask. */
  method Unmask(text: string, table: Table, order: seq<string>) returns (r: string)
    requires Tokens(table) && OrderOf(order, table)
    ensures r == UnmaskedBy(text, table, order, |order|)
  {
    r := text;
    for i := 0 to |order|
      invariant r == UnmaskedBy(text, table, order, i)
    {
      r := Replace(r, order[i], table[order[i]]);
    }
  }

  /** The text with the first n tokens of the order replaced. */
  function SubstitutedBy(m: Masked, table: Table, order: seq<string>, n: nat): Masked
    requires Tokens(table) && n <= |order| && forall i :: 0 <= i < |order| ==> order[i] in table
  {
    if n == 0 then m else Substitute(SubstitutedBy(m, table, order, n - 1), order[n - 1], table[order[n - 1]])
  }

  ghost predicate FreeOfTokens(text: string, table: Table) { forall t :: t in table ==> !Contains(text, t) }

  lemma {:induction false} EachReplacement(m: Masked, table: Table, order: seq<string>, n: nat)
    requires AllDelimited(m) && Tokens(table) && OrderOf(order, table) && n <= |order|
    ensures AllDelimited(SubstitutedBy(m, table, order, n))
    ensures UnmaskedBy(Render(m), table, order, n) == Render(SubstitutedBy(m, table, order, n))
  {
    if n > 0 {
      EachReplacement(m, table, order, n - 1);
      var s, t := SubstitutedBy(m, table, order, n - 1), order[n - 1];
      SubstituteKeeps(s, t, table[t], t);
      ReplaceIsSubstitute(s, t, table[t]);
    }
  }

  lemma {:induction false} EachKeepsRestore(m: Masked, table: Table, order: seq<string>, n: nat)
    requires Tokens(table) && OrderOf(order, table) && n <= |order| && FreeOfTokens(Restore(m, table), table)
    ensures Restore(SubstitutedBy(m, table, order, n), table) == Restore(m, table)
  {
    if n > 0 {
      EachKeepsRestore(m, table, order, n - 1);
      SubstituteKeepsRestore(SubstitutedBy(m, table, order, n - 1), table, order[n - 1]);
    }
  }

  lemma {:induction false} ReplacedStaysReplaced(m: Masked, table: Table, order: seq<string>, n: nat, i: nat)
    requires AllDelimited(m) && Tokens(table) && OrderOf(order, table) && i < n <= |order|
    ensures !Pending(SubstitutedBy(m, table, order, n), order[i])
  {
    EachReplacement(m, table, order, n - 1);
    SubstituteKeeps(SubstitutedBy(m, table, order, n - 1), order[n - 1], table[order[n - 1]], order[i]);
    if i < n - 1 {
      ReplacedStaysReplaced(m, table, order, n - 1, i);
    }
  }

  /**
   Replacing the tokens one after the other, in whatever order, is replacing them all at once, as
   long as the restored text itself shows no token of the table.
   */
  lemma SequentialIsSimultaneous(m: Masked, table: Table, order: seq<string>)
    requires AllDelimited(m) && Tokens(table) && OrderOf(order, table)
    requires FreeOfTokens(Restore(m, table), table)
    ensures UnmaskedBy(Render(m), table, order, |order|) == Restore(m, table)
  {
    var s := SubstitutedBy(m, table, order, |order|);
    EachReplacement(m, table, order, |order|);
    EachKeepsRestore(m, table, order, |order|);
    NoneLeft(m, table, order);
    NothingPending(s, table);
  }

  lemma NoneLeft(m: Masked, table: Table, order: seq<string>)
    requires AllDelimited(m) && Tokens(table) && OrderOf(order, table)
    ensures forall t :: t in table ==> !Pending(SubstitutedBy(m, table, order, |order|), t)
  {
    forall t | t in table
      ensures !Pending(SubstitutedBy(m, table, order, |order|), t)
    {
      var i :| 0 <= i < |order| && order[i] == t;
      ReplacedStaysReplaced(m, table, order, |order|, i);
    }
  }

  // ---------------------------------------------------------------------------------------
  // Literal text that shows a token
  // ---------------------------------------------------------------------------------------

  function Opens(s: string): nat {
    if s == "" then 0 else (if s[0] == '<' then 1 else 0) + Opens(s[1..])
  }

  lemma {:induction false} OpensAdd(a: string, b: string)
    ensures Opens(a + b) == Opens(a) + Opens(b)
  {
    if a == "" {
      assert a + b == b;
    } else {
      OpensAdd(a[1..], b);
      assert (a + b)[1..] == a[1..] + b;
    }
  }

  lemma {:induction false} NoOpens(s: string)
    requires forall i :: 0 <= i < |s| ==> s[i] != '<'
    ensures Opens(s) == 0
  {
    if s != "" {
      NoOpens(s[1..]);
    }
  }

  /** Replacing a token by a value without '<' never adds a '<', and takes one for each occurrence. */
  lemma {:induction false} ReplaceTakesOpens(x: string, t: string, o: string)
    requires Delimited(t) && Opens(o) == 0
    ensures Opens(Replace(x, t, o)) <= Opens(x)
    ensures Contains(x, t) ==> Opens(Replace(x, t, o)) < Opens(x)
    decreases |x|
  {
    if x == "" {
    } else if t <= x {
      ReplaceTakesOpens(x[|t|..], t, o);
      OpensAdd(o, Replace(x[|t|..], t, o));
      NoOpens(t[1..]);
      assert x == t + x[|t|..];
      OpensAdd(t, x[|t|..]);
    } else {
      ReplaceTakesOpens(x[1..], t, o);
      assert x == [x[0]] + x[1..];
      OpensAdd([x[0]], Replace(x[1..], t, o));
      if i: nat :| OccursAt(x, t, i) {
        assert i > 0 by { assert x[0..] == x; }
        assert x[1..][i - 1..] == x[i..];
        assert OccursAt(x[1..], t, i - 1);
      }
    }
  }

  function RunOpens(m: Masked): nat {
    Opens(m.run) + if m.Node? then RunOpens(m.rest) else 0
  }

  ghost predicate ShowsInRun(m: Masked, t: string) { Contains(m.run, t) || (m.Node? && ShowsInRun(m.rest, t)) }

  lemma OccursWithin(a: string, x: string, b: string, t: string)
    requires Contains(x, t)
    ensures Contains(a + x, t) && Contains(x + b, t)
  {
    var i: nat :| OccursAt(x, t, i);
    assert (a + x)[|a| + i..] == x[i..] && (x + b)[i..] == x[i..] + b;
    assert OccursAt(a + x, t, |a| + i) && OccursAt(x + b, t, i);
  }

  lemma PrependShows(p: string, m: Masked, t: string)
    ensures ShowsInRun(m, t) ==> ShowsInRun(Prepend(p, m), t)
    ensures Contains(p, t) ==> ShowsInRun(Prepend(p, m), t)
    ensures RunOpens(Prepend(p, m)) == Opens(p) + RunOpens(m)
  {
    OpensAdd(p, m.run);
    if Contains(m.run, t) {
      OccursWithin(p, m.run, "", t);
    }
    if Contains(p, t) {
      OccursWithin("", p, m.run, t);
    }
  }

  lemma {:induction false} SubstituteTakesOpens(m: Masked, t: string, o: string)
    requires Delimited(t) && Opens(o) == 0
    ensures RunOpens(Substitute(m, t, o)) <= RunOpens(m)
    ensures ShowsInRun(m, t) ==> RunOpens(Substitute(m, t, o)) < RunOpens(m)
  {
    ReplaceTakesOpens(m.run, t, o);
    if m.Node? {
      var x := Replace(m.run, t, o);
      SubstituteTakesOpens(m.rest, t, o);
      PrependShows(x + o, Substitute(m.rest, t, o), t);
      OpensAdd(x, o);
    }
  }

  /** What shows in a stretch of literal text is left alone by the replacement of another token. */
  lemma OtherOccurrenceStays(x: string, u: string, t: string, o: string)
    requires Delimited(t) && Delimited(u) && t != u && Contains(x, u)
    ensures Contains(Replace(x, t, o), u)
  {
    var i: nat :| OccursAt(x, u, i);
    var b := x[i + |u|..];
    assert x == x[..i] + (u + b);
    ReplaceAround(x[..i], u, b, t, o);
    var a, c := Replace(x[..i], t, o), Replace(b, t, o);
    assert (a + (u + c))[|a|..] == u + c;
    assert OccursAt(a + (u + c), u, |a|);
  }

  lemma {:induction false} OtherShowingStays(m: Masked, u: string, t: string, o: string)
    requires Delimited(t) && Delimited(u) && t != u && ShowsInRun(m, u)
    ensures ShowsInRun(Substitute(m, t, o), u)
  {
    var x := Replace(m.run, t, o);
    if Contains(m.run, u) {
      OtherOccurrenceStays(m.run, u, t, o);
      OccursWithin("", x, o, u);
    } else {
      OtherShowingStays(m.rest, u, t, o);
    }
    if m.Node? {
      PrependShows(x + o, Substitute(m.rest, t, o), u);
    }
  }

  ghost predicate PlainValues(table: Table) { forall t :: t in table ==> Opens(table[t]) == 0 }

  /** Either u was not reached yet and still shows, or a '<' of the literal text is gone. */
  lemma {:induction false} ShowingOrLost(m: Masked, table: Table, order: seq<string>, n: nat, u: string)
    requires Tokens(table) && OrderOf(order, table) && PlainValues(table) && n <= |order|
    requires u in table && ShowsInRun(m, u)
    ensures
      var s := SubstitutedBy(m, table, order, n);
      if u in order[..n] then RunOpens(s) < RunOpens(m) else RunOpens(s) <= RunOpens(m) && ShowsInRun(s, u)
  {
    if n > 0 {
      var s, t := SubstitutedBy(m, table, order, n - 1), order[n - 1];
      ShowingOrLost(m, table, order, n - 1, u);
      SubstituteTakesOpens(s, t, table[t]);
      assert order[..n] == order[..n - 1] + [t];
      if t != u && u !in order[..n - 1] {
        OtherShowingStays(s, u, t, table[t]);
      }
    }
  }

  predicate Known(m: Masked, table: Table) { m.Node? ==> m.token in table && Known(m.rest, table) }

  lemma {:induction false} RestoreOpens(m: Masked, table: Table)
    requires PlainValues(table) && Known(m, table)
    ensures Opens(Restore(m, table)) == RunOpens(m)
  {
    if m.Node? {
      RestoreOpens(m.rest, table);
      OpensAdd(m.run, table[m.token] + Restore(m.rest, table));
      OpensAdd(table[m.token], Restore(m.rest, table));
    }
  }

  lemma {:induction false} SubstituteKnown(m: Masked, table: Table, order: seq<string>, n: nat)
    requires Tokens(table) && OrderOf(order, table) && Known(m, table) && n <= |order|
    ensures Known(SubstitutedBy(m, table, order, n), table)
  {
    if n > 0 {
      SubstituteKnown(m, table, order, n - 1);
      OneKnown(SubstitutedBy(m, table, order, n - 1), table, order[n - 1]);
    }
  }

  lemma {:induction false} OneKnown(m: Masked, table: Table, t: string)
    requires t in table && t != "" && Known(m, table)
    ensures Known(Substitute(m, t, table[t]), table)
  {
    if m.Node? {
      OneKnown(m.rest, table, t);
    }
  }

  /**
   Literal text in which a token of the table shows is not restored, in any order: the replacement
   hits it as well.
   */
  lemma LiteralTokenIsLost(m: Masked, table: Table, order: seq<string>, u: string)
    requires AllDelimited(m) && Tokens(table) && OrderOf(order, table) && PlainValues(table) && Known(m, table)
    requires u in table && ShowsInRun(m, u)
    ensures UnmaskedBy(Render(m), table, order, |order|) != Restore(m, table)
  {
    var s := SubstitutedBy(m, table, order, |order|);
    EachReplacement(m, table, order, |order|);
    ShowingOrLost(m, table, order, |order|, u);
    assert order[..|order|] == order;
    NoneLeft(m, table, order);
    SubstituteKnown(m, table, order, |order|);
    NothingPending(s, table);
    RestoreOpens(m, table);
    RestoreOpens(s, table);
  }

  // ---------------------------------------------------------------------------------------
  // Exactly when a text comes back
  // ---------------------------------------------------------------------------------------

  /** The values of some tokens put in, and nothing else changed. */
  ghost function Partial(m: Masked, table: Table, s: set<string>): Masked
    requires s <= table.Keys
  {
    match m
    case End(x) => m
    case Node(x, u, r) =>
      if u in s then Prepend(x + table[u], Partial(r, table, s)) else Node(x, u, Partial(r, table, s))
  }

  lemma PartialPrepend(p: string, m: Masked, table: Table, s: set<string>)
    requires s <= table.Keys
    ensures Partial(Prepend(p, m), table, s) == Prepend(p, Partial(m, table, s))
  {
    if m.Node? && m.token in s {
      Associates(p, m.run, table[m.token]);
      PrependTwice(p, m.run + table[m.token], Partial(m.rest, table, s));
    }
  }

  lemma PrependTwice(p: string, q: string, m: Masked)
    ensures Prepend(p, Prepend(q, m)) == Prepend(p + q, m)
  {
    Associates(p, q, m.run);
  }

  /** Putting in some values and then others is putting in all of them. */
  lemma {:induction false} PartialAdds(m: Masked, table: Table, s: set<string>, t: set<string>)
    requires s <= table.Keys && t <= table.Keys
    ensures Partial(Partial(m, table, s), table, t) == Partial(m, table, s + t)
  {
    if m.Node? {
      PartialAdds(m.rest, table, s, t);
      if m.token in s {
        PartialPrepend(m.run + table[m.token], Partial(m.rest, table, s), table, t);
      }
    }
  }

  lemma {:induction false} PartialRestores(m: Masked, table: Table, s: set<string>)
    requires s <= table.Keys
    ensures Restore(Partial(m, table, s), table) == Restore(m, table)
  {
    if m.Node? {
      PartialRestores(m.rest, table, s);
      if m.token in s {
        RestorePrepend(m.run + table[m.token], Partial(m.rest, table, s), table);
        Associates(m.run, table[m.token], Restore(m.rest, table));
      }
    }
  }

  /** What shows in a stretch still shows when that stretch has grown. */
  lemma {:induction false} PartialShows(m: Masked, table: Table, s: set<string>, u: string)
    requires s <= table.Keys && ShowsInRun(m, u)
    ensures ShowsInRun(Partial(m, table, s), u)
  {
    if m.Node? {
      if ShowsInRun(m.rest, u) {
        PartialShows(m.rest, table, s, u);
      }
      if Contains(m.run, u) && m.token in s {
        OccursWithin("", m.run, table[m.token], u);
      }
      if m.token in s {
        PrependShows(m.run + table[m.token], Partial(m.rest, table, s), u);
      }
    }
  }

  /** Where no stretch shows the token, replacing it puts in its value and nothing else. */
  lemma {:induction false} CleanReplacement(m: Masked, table: Table, t: string)
    requires Delimited(t) && t in table && !ShowsInRun(m, t)
    ensures Substitute(m, t, table[t]) == Partial(m, table, {t})
  {
    NothingToReplace(m.run, t, table[t]);
    if m.Node? {
      CleanReplacement(m.rest, table, t);
    }
  }

  /** The k-th replacement finds its token in what is literal text by then, restored values included. */
  ghost predicate Hits(m: Masked, table: Table, order: seq<string>, k: nat)
    requires Tokens(table) && OrderOf(order, table) && k < |order|
  {
    ShowsInRun(SubstitutedBy(m, table, order, k), order[k])
  }

  ghost predicate Clean(m: Masked, table: Table, order: seq<string>, n: nat)
    requires Tokens(table) && OrderOf(order, table) && n <= |order|
  {
    forall k :: 0 <= k < n ==> !Hits(m, table, order, k)
  }

  /** The first n tokens of the order. */
  ghost function First(order: seq<string>, n: nat): (s: set<string>)
    requires n <= |order|
    ensures forall t :: t in s <==> t in order[..n]
  {
    if n == 0 then {}
    else
      assert order[..n] == order[..n - 1] + [order[n - 1]];
      First(order, n - 1) + {order[n - 1]}
  }

  lemma FirstAreKeys(table: Table, order: seq<string>, n: nat)
    requires OrderOf(order, table) && n <= |order|
    ensures First(order, n) <= table.Keys
  {
  }

  lemma CleanStep(m: Masked, table: Table, s: set<string>, was: Masked, t: string)
    requires s <= table.Keys && was == Partial(m, table, s)
    requires Delimited(t) && t in table && !ShowsInRun(was, t)
    ensures Substitute(was, t, table[t]) == Partial(m, table, s + {t})
  {
    CleanReplacement(was, table, t);
    PartialAdds(m, table, s, {t});
  }

  lemma {:induction false} CleanIsPartial(m: Masked, table: Table, order: seq<string>, n: nat)
    requires Tokens(table) && OrderOf(order, table) && n <= |order| && Clean(m, table, order, n)
    ensures First(order, n) <= table.Keys
    ensures SubstitutedBy(m, table, order, n) == Partial(m, table, First(order, n))
  {
    FirstAreKeys(table, order, n);
    if n == 0 {
      PartialOfNone(m, table);
    } else {
      CleanIsPartial(m, table, order, n - 1);
      assert !Hits(m, table, order, n - 1);
      CleanStep(m, table, First(order, n - 1), SubstitutedBy(m, table, order, n - 1), order[n - 1]);
    }
  }

  lemma {:induction false} PartialOfNone(m: Masked, table: Table)
    ensures Partial(m, table, {}) == m
  {
    if m.Node? {
      PartialOfNone(m.rest, table);
    }
  }

  lemma {:induction false} OpensFall(m: Masked, table: Table, order: seq<string>, k: nat, n: nat)
    requires Tokens(table) && OrderOf(order, table) && PlainValues(table) && k <= n <= |order|
    ensures RunOpens(SubstitutedBy(m, table, order, n)) <= RunOpens(SubstitutedBy(m, table, order, k))
  {
    if k < n {
      OpensFall(m, table, order, k, n - 1);
      SubstituteTakesOpens(SubstitutedBy(m, table, order, n - 1), order[n - 1], table[order[n - 1]]);
    }
  }

  /** The text after all replacements, with no token left in it. */
  lemma UnmaskedIsRestored(m: Masked, table: Table, order: seq<string>)
    requires AllDelimited(m) && Tokens(table) && OrderOf(order, table)
    ensures UnmaskedBy(Render(m), table, order, |order|) == Restore(SubstitutedBy(m, table, order, |order|), table)
  {
    EachReplacement(m, table, order, |order|);
    NoneLeft(m, table, order);
    NothingPending(SubstitutedBy(m, table, order, |order|), table);
  }

  lemma HitTakesOpens(m: Masked, table: Table, order: seq<string>, k: nat)
    requires Tokens(table) && OrderOf(order, table) && PlainValues(table)
    requires k < |order| && Hits(m, table, order, k)
    ensures RunOpens(SubstitutedBy(m, table, order, |order|)) < RunOpens(m)
  {
    OpensFall(m, table, order, 0, k);
    SubstituteTakesOpens(SubstitutedBy(m, table, order, k), order[k], table[order[k]]);
    OpensFall(m, table, order, k + 1, |order|);
  }

  lemma HitIsLost(m: Masked, table: Table, order: seq<string>, k: nat)
    requires AllDelimited(m) && Tokens(table) && OrderOf(order, table) && PlainValues(table) && Known(m, table)
    requires k < |order| && Hits(m, table, order, k)
    ensures UnmaskedBy(Render(m), table, order, |order|) != Restore(m, table)
  {
    HitTakesOpens(m, table, order, k);
    UnmaskedIsRestored(m, table, order);
    SubstituteKnown(m, table, order, |order|);
    RestoreOpens(m, table);
    RestoreOpens(SubstitutedBy(m, table, order, |order|), table);
  }

  /**
   For values without '<': replacing the tokens in this order restores the text exactly when no
   replacement finds its token in what is literal text by then, restored values included.
   */
  lemma RestoredInOrderExactly(m: Masked, table: Table, order: seq<string>)
    requires AllDelimited(m) && Tokens(table) && OrderOf(order, table) && PlainValues(table) && Known(m, table)
    ensures UnmaskedBy(Render(m), table, order, |order|) == Restore(m, table) <==> Clean(m, table, order, |order|)
  {
    if Clean(m, table, order, |order|) {
      CleanIsPartial(m, table, order, |order|);
      PartialRestores(m, table, First(order, |order|));
      UnmaskedIsRestored(m, table, order);
    } else {
      var k :| 0 <= k < |order| && Hits(m, table, order, k);
      HitIsLost(m, table, order, k);
    }
  }

  /** The orders a dict can be iterated in: every key once. */
  ghost predicate DictOrder(order: seq<string>, table: Table) {
    OrderOf(order, table) && forall i, j :: 0 <= i < j < |order| ==> order[i] != order[j]
  }

  ghost predicate RestoredBy(m: Masked, table: Table, order: seq<string>)
    requires Tokens(table)
  {
    OrderOf(order, table) && UnmaskedBy(Render(m), table, order, |order|) == Restore(m, table)
  }

  /** The token still shows once the values of all the others are put in. */
  ghost predicate ShowsAtLast(m: Masked, table: Table, u: string) {
    ShowsInRun(Partial(m, table, table.Keys - {u}), u)
  }

  lemma {:induction false} Listed(s: set<string>) returns (q: seq<string>)
    ensures forall x :: x in q <==> x in s
    ensures forall i, j :: 0 <= i < j < |q| ==> q[i] != q[j]
  {
    if s == {} {
      q := [];
    } else {
      var x :| x in s;
      var p := Listed(s - {x});
      q := p + [x];
    }
  }

  lemma OrderWithLast(table: Table, u: string) returns (order: seq<string>, n: nat)
    requires u in table
    ensures DictOrder(order, table)
    ensures n < |order| && order[n] == u && First(order, n) == table.Keys - {u}
  {
    var others := Listed(table.Keys - {u});
    order, n := others + [u], |others|;
    forall t
      ensures t in order <==> t in table
    {
      assert t in order <==> t in others || t == u;
    }
    assert order[..n] == others;
    forall i, j | 0 <= i < j < |order|
      ensures order[i] != order[j]
    {
      assert order[i] == others[i] && others[i] in others;
    }
    assert forall t :: t in First(order, n) <==> t in others;
  }

  /** With a token last that shows at last, its replacement hits literal text. */
  lemma LastHits(m: Masked, table: Table, u: string) returns (order: seq<string>)
    requires AllDelimited(m) && Tokens(table) && PlainValues(table) && Known(m, table)
    requires u in table && ShowsAtLast(m, table, u)
    ensures DictOrder(order, table) && !RestoredBy(m, table, order)
  {
    var n: nat;
    order, n := OrderWithLast(table, u);
    RestoredInOrderExactly(m, table, order);
    if Clean(m, table, order, n) {
      CleanIsPartial(m, table, order, n);
      assert Hits(m, table, order, n);
    }
  }

  /** A token that shows early still shows at last. */
  lemma ShowsEarly(m: Masked, table: Table, s: set<string>, u: string)
    requires s <= table.Keys && u !in s && ShowsInRun(Partial(m, table, s), u)
    ensures ShowsAtLast(m, table, u)
  {
    var rest := table.Keys - {u} - s;
    PartialAdds(m, table, s, rest);
    PartialShows(Partial(m, table, s), table, rest, u);
    assert s + rest == table.Keys - {u};
  }

  lemma LaterIsNew(order: seq<string>, table: Table, n: nat)
    requires DictOrder(order, table) && n < |order|
    ensures order[n] !in First(order, n)
  {
  }

  ghost predicate NoneShowsAtLast(m: Masked, table: Table) {
    forall u :: u in table ==> !ShowsAtLast(m, table, u)
  }

  /** The next replacement hits nothing either: a token it hit would show at last. */
  lemma NextIsClean(m: Masked, table: Table, order: seq<string>, k: nat)
    requires Tokens(table) && DictOrder(order, table) && k < |order| && Clean(m, table, order, k)
    requires !ShowsAtLast(m, table, order[k])
    ensures !Hits(m, table, order, k)
  {
    CleanIsPartial(m, table, order, k);
    LaterIsNew(order, table, k);
    if ShowsInRun(Partial(m, table, First(order, k)), order[k]) {
      ShowsEarly(m, table, First(order, k), order[k]);
    }
  }

  lemma {:induction false} NeverHits(m: Masked, table: Table, order: seq<string>, n: nat)
    requires Tokens(table) && DictOrder(order, table) && n <= |order| && NoneShowsAtLast(m, table)
    ensures Clean(m, table, order, n)
  {
    if n > 0 {
      NeverHits(m, table, order, n - 1);
      assert order[n - 1] in table;
      NextIsClean(m, table, order, n - 1);
    }
  }

  /**
   For values without '<': the text comes back whatever the order exactly when, the values of all other
   tokens put in, no token shows in literal text.
   */
  lemma RestoredExactly(m: Masked, table: Table)
    requires AllDelimited(m) && Tokens(table) && PlainValues(table) && Known(m, table)
    ensures (forall order :: DictOrder(order, table) ==> RestoredBy(m, table, order)) <==> NoneShowsAtLast(m, table)
  {
    if NoneShowsAtLast(m, table) {
      forall order | DictOrder(order, table)
        ensures RestoredBy(m, table, order)
      {
        NeverHits(m, table, order, |order|);
        RestoredInOrderExactly(m, table, order);
      }
    } else {
      var u :| u in table && ShowsAtLast(m, table, u);
      var order := LastHits(m, table, u);
    }
  }
}
