/**
 From subword predictions to tagged words (services/inference-service/services/ner_service.py): word
 spans, merging of BPE pieces, and the alignment of entity groups to words. Lower-casing is any
 mapping of single characters.
 */
module Ner {
  import opened Options
  import opened Sequences
  import opened Texts

  datatype Word = Word(word: string, start: nat, end: nat)

  /** A prediction with its entity text and tag already picked from the model's fields. */
  datatype Prediction = Prediction(entity: string, tag: string)

  datatype Group = Group(tag: string, entity: string)

  // ---------------------------------------------------------------------------------------
  // Word spans
  // ---------------------------------------------------------------------------------------

  /** The whitespace-separated words of s[i..], where they are. */
  function Spans(s: string, i: nat): seq<Word>
    requires i <= |s|
    decreases |s| - i
  {
    var a := SkipSpace(s, i);
    if a == |s| then [] else [Word(s[a..WordEnd(s, a)], a, WordEnd(s, a))] + Spans(s, WordEnd(s, a))
  }

  /** The search starts at the end of the word before, and lands on the word itself. */
  lemma FindLandsOnWord(s: string, pos: nat)
    requires pos <= |s| && SkipSpace(s, pos) < |s|
    ensures
      var a := SkipSpace(s, pos);
      Find(s, s[a..WordEnd(s, a)], pos) == a
  {
    var a := SkipSpace(s, pos);
    var w := s[a..WordEnd(s, a)];
    assert OccursAt(s, w, a);
    forall i | pos <= i < a
      ensures !OccursAt(s, w, i)
    {
      assert IsSpace(s[i]) && !IsSpace(w[0]);
      assert i + |w| <= |s| ==> s[i..i + |w|][0] == s[i];
    }
  }

  function NextWord(s: string, pos: nat): Word
    requires pos <= |s|
  {
    var a := SkipSpace(s, pos);
    Word(s[a..WordEnd(s, a)], a, WordEnd(s, a))
  }

  /** The words from i on are still to come, and the positions so far are theirs. */
  ghost predicate Building(source: string, words: seq<string>, i: nat, pos: nat, positions: seq<Word>) {
    && pos <= |source| && i <= |words|
    && words[i..] == Split(source, pos)
    && positions + Spans(source, pos) == Spans(source, 0)
  }

  lemma BuildingStep(source: string, words: seq<string>, i: nat, pos: nat, positions: seq<Word>)
    requires Building(source, words, i, pos, positions) && i < |words|
    ensures
      var w := NextWord(source, pos);
      && w.word == words[i] && w.end == w.start + |words[i]| && Find(source, words[i], pos) == w.start
      && Building(source, words, i + 1, w.end, positions + [w])
  {
    var w := NextWord(source, pos);
    assert words[i..][0] == words[i] && words[i..][1..] == words[i + 1..];
    assert Split(source, pos) == [w.word] + Split(source, w.end);
    assert Spans(source, pos) == [w] + Spans(source, w.end);
    Associates(positions, [w], Spans(source, w.end));
    FindLandsOnWord(source, pos);
  }

  lemma BuildingStarts(source: string)
    ensures Building(source, Split(source, 0), 0, 0, [])
  {
    assert [] + Spans(source, 0) == Spans(source, 0);
  }

  lemma BuildingEnds(source: string, words: seq<string>, pos: nat, positions: seq<Word>)
    requires Building(source, words, |words|, pos, positions)
    ensures positions == Spans(source, 0)
  {
    assert positions + [] == positions;
  }

  /** _build_word_positions. */
  method BuildWordPositions(source: string) returns (positions: seq<Word>)
    ensures positions == Spans(source, 0)
  {
    positions := [];
    var words, pos := Split(source, 0), 0;
    BuildingStarts(source);
    for i := 0 to |words|
      invariant 0 <= pos <= |source|
      invariant Building(source, words, i, pos, positions)
    {
      BuildingStep(source, words, i, pos, positions);
      var start := Find(source, words[i], pos);
      var here := Word(words[i], start, start + |words[i]|);
      assert here == NextWord(source, pos);
      positions := positions + [here];
      pos := here.end;
    }
    BuildingEnds(source, words, pos, positions);
  }

  /** A maximal stretch without whitespace. */
  predicate IsWordOf(s: string, w: Word) {
    && w.start < w.end <= |s| && w.word == s[w.start..w.end]
    && (forall k :: w.start <= k < w.end ==> !IsSpace(s[k]))
    && (w.start > 0 ==> IsSpace(s[w.start - 1])) && (w.end < |s| ==> IsSpace(s[w.end]))
  }

  predicate AreWords(s: string, words: seq<Word>) { forall i :: 0 <= i < |words| ==> IsWordOf(s, words[i]) }

  lemma {:induction false} SpansAreWords(s: string, i: nat, n: nat)
    requires i <= |s| && n < |Spans(s, i)| && (0 < i < |s| ==> IsSpace(s[i]))
    ensures i <= Spans(s, i)[n].start && IsWordOf(s, Spans(s, i)[n])
    ensures n + 1 < |Spans(s, i)| ==> Spans(s, i)[n].end < Spans(s, i)[n + 1].start
    decreases |s| - i
  {
    var b := WordEnd(s, SkipSpace(s, i));
    if n > 0 {
      SpansAreWords(s, b, n - 1);
    } else if |Spans(s, i)| > 1 {
      SpansAreWords(s, b, 0);
    }
  }

  lemma {:induction false} SpansCover(s: string, i: nat, k: nat) returns (n: nat)
    requires i <= k < |s| && !IsSpace(s[k])
    ensures n < |Spans(s, i)| && Spans(s, i)[n].start <= k < Spans(s, i)[n].end
    decreases |s| - i
  {
    var b := WordEnd(s, SkipSpace(s, i));
    if k < b {
      n := 0;
    } else {
      n := SpansCover(s, b, k);
      n := n + 1;
    }
  }

  /** The spans are the words of the text: in order, apart, and over every character that is no space. */
  lemma WordPositionsExact(s: string)
    ensures
      var w := Spans(s, 0);
      && AreWords(s, w)
      && (forall n :: 0 <= n < |w| - 1 ==> w[n].end < w[n + 1].start)
      && (forall k :: 0 <= k < |s| && !IsSpace(s[k]) ==> exists n :: 0 <= n < |w| && w[n].start <= k < w[n].end)
  {
    var w := Spans(s, 0);
    forall n | 0 <= n < |w|
      ensures IsWordOf(s, w[n]) && (n + 1 < |w| ==> w[n].end < w[n + 1].start)
    {
      SpansAreWords(s, 0, n);
    }
    forall k | 0 <= k < |s| && !IsSpace(s[k])
      ensures exists n :: 0 <= n < |w| && w[n].start <= k < w[n].end
    {
      var n := SpansCover(s, 0, k);
    }
  }

  // ---------------------------------------------------------------------------------------
  // BPE groups
  // ---------------------------------------------------------------------------------------

  predicate Continues(p: Prediction) { "##" <= p.entity }

  function Piece(p: Prediction): string { if Continues(p) then p.entity[2..] else p.entity }

  /** A piece that goes on with the word before loses its two marks; any other is taken as it is. */
  lemma PieceExactly(p: Prediction, text: string)
    ensures p.entity == "##" + text ==> Continues(p) && Piece(p) == text
    ensures |p.entity| < 2 || p.entity[0] != '#' || p.entity[1] != '#' ==> !Continues(p) && Piece(p) == p.entity
  {
    if p.entity == "##" + text {
      assert p.entity[..2] == "##" && p.entity[2..] == text;
    }
    if Continues(p) {
      assert p.entity[0] == "##"[0] && p.entity[1] == "##"[1];
    }
  }

  function Joined(preds: seq<Prediction>, i: nat, j: nat): string
    requires i <= j <= |preds|
  {
    if i == j then "" else Joined(preds, i, j - 1) + Piece(preds[j - 1])
  }

  /** First index from j on that is not a continuation. */
  function GroupEnd(preds: seq<Prediction>, j: nat): (e: nat)
    requires j <= |preds|
    ensures j <= e <= |preds|
    ensures forall k :: j <= k < e ==> Continues(preds[k])
    ensures e < |preds| ==> !Continues(preds[e])
    decreases |preds| - j
  {
    if j == |preds| || !Continues(preds[j]) then j else GroupEnd(preds, j + 1)
  }

  function GroupAt(preds: seq<Prediction>, k: nat): Group
    requires k < |preds|
  {
    Group(preds[k].tag, Strip(Joined(preds, k, GroupEnd(preds, k + 1))))
  }

  /** A prediction opens a group if it has text and does not continue one with text before it. */
  predicate Opens(preds: seq<Prediction>, k: nat)
    requires k < |preds|
  {
    preds[k].entity != "" && !(Continues(preds[k]) && k > 0 && preds[k - 1].entity != "")
  }

  /** One group per opening prediction among the first n, in order. */
  function Groups(preds: seq<Prediction>, n: nat): seq<Group>
    requires n <= |preds|
  {
    if n == 0 then [] else Groups(preds, n - 1) + if Opens(preds, n - 1) then [GroupAt(preds, n - 1)] else []
  }

  function OpensBefore(preds: seq<Prediction>, n: nat): nat
    requires n <= |preds|
  {
    if n == 0 then 0 else OpensBefore(preds, n - 1) + if Opens(preds, n - 1) then 1 else 0
  }

  /** Prediction k has text and is not, with "##", the continuation of a prediction with text. */
  predicate StartsGroup(preds: seq<Prediction>, k: nat)
    requires k < |preds|
  {
    && preds[k].entity != ""
    && (k == 0 || preds[k - 1].entity == "" || |preds[k].entity| < 2 || preds[k].entity[..2] != "##")
  }

  /** The predictions after k that go on with its group end before e. */
  predicate GroupEndsAt(preds: seq<Prediction>, k: nat, e: nat) {
    && k < e <= |preds|
    && (forall j :: k < j < e ==> |preds[j].entity| >= 2 && preds[j].entity[..2] == "##")
    && (e < |preds| ==> |preds[e].entity| < 2 || preds[e].entity[..2] != "##")
  }

  lemma StartsExactly(preds: seq<Prediction>, k: nat, e: nat)
    requires k < |preds| && GroupEndsAt(preds, k, e)
    ensures Opens(preds, k) <==> StartsGroup(preds, k)
    ensures GroupAt(preds, k) == Group(preds[k].tag, Strip(Joined(preds, k, e)))
  {
    ContinuesExactly(preds[k]);
    SameEnd(preds, k, e);
  }

  /** Exactly the predictions that start a group have one, in order, with their tag and the joined text. */
  lemma {:induction false} GroupsExactly(preds: seq<Prediction>, n: nat, k: nat, e: nat)
    requires k < n <= |preds| && GroupEndsAt(preds, k, e)
    ensures |Groups(preds, n)| == OpensBefore(preds, n)
    ensures OpensBefore(preds, k + 1) == OpensBefore(preds, k) + if StartsGroup(preds, k) then 1 else 0
    ensures StartsGroup(preds, k) ==>
      && OpensBefore(preds, k) < |Groups(preds, n)|
      && Groups(preds, n)[OpensBefore(preds, k)] == Group(preds[k].tag, Strip(Joined(preds, k, e)))
  {
    StartsExactly(preds, k, e);
    GroupCount(preds, n);
    if StartsGroup(preds, k) {
      GroupPlace(preds, n, k, OpensBefore(preds, k), GroupAt(preds, k));
    }
  }

  /** The group of an opening prediction stays where the groups before it put it. */
  lemma {:induction false} GroupPlace(preds: seq<Prediction>, n: nat, k: nat, place: nat, g: Group)
    requires k < n <= |preds| && Opens(preds, k)
    requires place == OpensBefore(preds, k) && g == GroupAt(preds, k)
    ensures HasAt(Groups(preds, n), place, g)
    decreases n
  {
    var before := n - 1;
    GroupsStep(preds, before, n);
    if k < before {
      GroupPlace(preds, before, k, place, g);
    } else {
      GroupCount(preds, k);
    }
  }

  predicate HasAt(groups: seq<Group>, place: nat, g: Group) { place < |groups| && groups[place] == g }

  lemma GroupsStep(preds: seq<Prediction>, n: nat, next: nat)
    requires next == n + 1 <= |preds|
    ensures Groups(preds, next) == Groups(preds, n) + if Opens(preds, n) then [GroupAt(preds, n)] else []
  {
  }

  lemma ContinuesExactly(p: Prediction)
    ensures Continues(p) <==> |p.entity| >= 2 && p.entity[..2] == "##"
  {
  }

  lemma {:induction false} GroupCount(preds: seq<Prediction>, n: nat)
    requires n <= |preds|
    ensures |Groups(preds, n)| == OpensBefore(preds, n)
  {
    if n > 0 {
      GroupCount(preds, n - 1);
    }
  }

  lemma SameEnd(preds: seq<Prediction>, k: nat, e: nat)
    requires GroupEndsAt(preds, k, e)
    ensures GroupEnd(preds, k + 1) == e
  {
    var end := GroupEnd(preds, k + 1);
    if end < e {
      ContinuesExactly(preds[end]);
    }
    if e < end {
      ContinuesExactly(preds[e]);
    }
  }

  /** Pieces are joined one after the other, without anything between. */
  lemma JoinedExactly(preds: seq<Prediction>, i: nat, j: nat)
    requires i < j <= |preds|
    ensures Joined(preds, i, j) == Joined(preds, i, j - 1) + Piece(preds[j - 1])
    ensures Joined(preds, i, i) == ""
  {
  }

  lemma {:induction false} NoneOpensInside(preds: seq<Prediction>, i: nat, j: nat)
    requires i < j <= |preds| && preds[i].entity != "" && forall k :: i < k < j ==> Continues(preds[k])
    ensures Groups(preds, j) == Groups(preds, i + 1)
  {
    if j > i + 1 {
      NoneOpensInside(preds, i, j - 1);
    }
  }

  /** _merge_bpe. */
  method MergeBpe(preds: seq<Prediction>, start: nat, end: nat) returns (text: string)
    requires start <= end <= |preds|
    ensures text == Strip(Joined(preds, start, end))
  {
    text := "";
    for i := start to end
      invariant text == Joined(preds, start, i)
    {
      text := text + Piece(preds[i]);
    }
    text := Strip(text);
  }

  lemma GroupStep(preds: seq<Prediction>, i: nat, j: nat)
    requires i < |preds| && Opens(preds, i) && j == GroupEnd(preds, i + 1)
    ensures Groups(preds, j) == Groups(preds, i) + [Group(preds[i].tag, Strip(Joined(preds, i, j)))]
  {
    NoneOpensInside(preds, i, j);
  }

  /** _group_bpe_tokens. */
  method GroupBpeTokens(preds: seq<Prediction>) returns (groups: seq<Group>)
    ensures groups == Groups(preds, |preds|)
  {
    groups := [];
    var i := 0;
    while i < |preds|
      invariant 0 <= i <= |preds| && groups == Groups(preds, i)
      invariant i < |preds| && preds[i].entity != "" ==> Opens(preds, i)
    {
      if preds[i].entity == "" {
        i := i + 1;
        continue;
      }
      var j := i + 1;
      while j < |preds| && Continues(preds[j])
        invariant i < j <= |preds| && GroupEnd(preds, i + 1) == GroupEnd(preds, j)
      {
        j := j + 1;
      }
      var text := MergeBpe(preds, i, j);
      groups := groups + [Group(preds[i].tag, text)];
      GroupStep(preds, i, j);
      i := j;
    }
  }

  // ---------------------------------------------------------------------------------------
  // Alignment
  // ---------------------------------------------------------------------------------------

  function Lowered(lower: char -> char, s: string): (r: string)
    ensures |r| == |s| && forall i :: 0 <= i < |s| ==> r[i] == lower(s[i])
  {
    seq(|s|, i requires 0 <= i < |s| => lower(s[i]))
  }

  /** Where t is found reading left to right, each search from the end of the one before. */
  function Occurrences(s: string, t: string, from: nat): seq<nat>
    requires t != ""
    decreases |s| - from
  {
    var i := Find(s, t, from);
    if i == -1 then [] else [i] + Occurrences(s, t, i + |t|)
  }

  predicate Overlaps(w: Word, s: nat, e: nat) { w.start < e && w.end > s }

  predicate Inside(p: int, a: int, b: int) { a <= p < b }

  /** Some position lies in the word and in the stretch from s to e. */
  ghost predicate SharesPosition(w: Word, s: nat, e: nat) {
    exists p :: Inside(p, w.start, w.end) && Inside(p, s, e)
  }

  lemma OverlapsExactly(w: Word, s: nat, e: nat)
    requires w.start < w.end && s < e
    ensures Overlaps(w, s, e) <==> SharesPosition(w, s, e)
  {
    if Overlaps(w, s, e) {
      var p := if w.start < s then s else w.start;
      assert Inside(p, w.start, w.end) && Inside(p, s, e);
    }
  }

  /** An occurrence of the group's text, from a position on, touches the word. */
  ghost predicate TouchesFrom(low: string, text: string, w: Word, from: nat)
    requires text != ""
  {
    exists k :: 0 <= k < |Occurrences(low, text, from)| &&
      Overlaps(w, Occurrences(low, text, from)[k], Occurrences(low, text, from)[k] + |text|)
  }

  ghost predicate Touches(lower: char -> char, source: string, g: Group, w: Word) {
    var text := Lowered(lower, Strip(g.entity));
    text != "" && TouchesFrom(Lowered(lower, source), text, w, 0)
  }

  /** The last of the first n groups for which the predicate holds. */
  ghost function LastWhere(groups: seq<Group>, p: Group -> bool, n: nat): Option<Group>
    requires n <= |groups|
  {
    if n == 0 then None else if p(groups[n - 1]) then Some(groups[n - 1]) else LastWhere(groups, p, n - 1)
  }

  ghost function Touching(lower: char -> char, source: string, w: Word): Group -> bool {
    g => Touches(lower, source, g, w)
  }

  /** The last of the first n groups that touches the word. */
  ghost function LastTouching(lower: char -> char, source: string, groups: seq<Group>, n: nat, w: Word): Option<Group>
    requires n <= |groups|
  {
    LastWhere(groups, Touching(lower, source, w), n)
  }

  type Aligned = map<nat, Group>

  function Get(m: Aligned, k: nat): Option<Group> { if k in m then Some(m[k]) else None }

  lemma TouchesStep(low: string, text: string, w: Word, from: nat)
    requires text != ""
    ensures
      var i := Find(low, text, from);
      TouchesFrom(low, text, w, from) <==>
        i != -1 && (Overlaps(w, i, i + |text|) || TouchesFrom(low, text, w, i + |text|))
  {
    var i := Find(low, text, from);
    if i != -1 {
      var all, later := Occurrences(low, text, from), Occurrences(low, text, i + |text|);
      assert all == [i] + later;
      if k :| 0 <= k < |later| && Overlaps(w, later[k], later[k] + |text|) {
        assert all[k + 1] == later[k];
      }
      if Overlaps(w, i, i + |text|) {
        assert Overlaps(w, all[0], all[0] + |text|);
      }
      if k :| 0 <= k < |all| && Overlaps(w, all[k], all[k] + |text|) {
        if k > 0 {
          assert Overlaps(w, later[k - 1], later[k - 1] + |text|);
        }
      }
    }
  }

  /** What word k ends up with, if the search goes on from a position under this assignment. */
  ghost function Pending(low: string, text: string, words: seq<Word>, g: Group, m: Aligned, from: nat,
                         k: nat): Option<Group>
    requires text != "" && k < |words|
  {
    if TouchesFrom(low, text, words[k], from) then Some(g) else Get(m, k)
  }

  ghost predicate SamePending(low: string, text: string, words: seq<Word>, g: Group, m: Aligned, from: nat,
                              m': Aligned, from': nat)
    requires text != ""
  {
    forall k :: 0 <= k < |words| ==>
      Pending(low, text, words, g, m, from, k) == Pending(low, text, words, g, m', from', k)
  }

  predicate Within(m: Aligned, n: nat) { forall k :: k in m ==> k < n }

  /** g put on the words among the first n that the stretch from s to e touches. */
  predicate PutOn(before: Aligned, after: Aligned, words: seq<Word>, n: nat, g: Group, s: nat, e: nat)
    requires n <= |words|
  {
    forall k :: 0 <= k < |words| ==>
      Get(after, k) == if k < n && Overlaps(words[k], s, e) then Some(g) else Get(before, k)
  }

  /** The inner loop over the words, for one occurrence. */
  method Mark(words: seq<Word>, g: Group, s: nat, e: nat, before: Aligned) returns (after: Aligned)
    requires Within(before, |words|)
    ensures Within(after, |words|) && PutOn(before, after, words, |words|, g, s, e)
  {
    after := before;
    for wi := 0 to |words|
      invariant Within(after, |words|) && PutOn(before, after, words, wi, g, s, e)
    {
      if Overlaps(words[wi], s, e) {
        after := after[wi := g];
      }
    }
  }

  lemma MarkOne(low: string, text: string, words: seq<Word>, g: Group, was: Aligned, after: Aligned,
                pos: nat, next: nat, k: nat)
    requires text != "" && k < |words| && Find(low, text, pos) != -1
    requires next == Find(low, text, pos) + |text| && PutOn(was, after, words, |words|, g, Find(low, text, pos), next)
    ensures Pending(low, text, words, g, was, pos, k) == Pending(low, text, words, g, after, next, k)
  {
    TouchesStep(low, text, words[k], pos);
  }

  lemma MarkStep(low: string, text: string, words: seq<Word>, g: Group, before: Aligned, was: Aligned, after: Aligned,
                 pos: nat, next: nat)
    requires text != "" && Find(low, text, pos) != -1 && SamePending(low, text, words, g, before, 0, was, pos)
    requires next == Find(low, text, pos) + |text| && PutOn(was, after, words, |words|, g, Find(low, text, pos), next)
    ensures SamePending(low, text, words, g, before, 0, after, next)
  {
    forall k | 0 <= k < |words|
      ensures Pending(low, text, words, g, before, 0, k) == Pending(low, text, words, g, after, next, k)
    {
      assert Pending(low, text, words, g, before, 0, k) == Pending(low, text, words, g, was, pos, k);
      MarkOne(low, text, words, g, was, after, pos, next, k);
    }
  }

  /** A word equal to the text is an occurrence of it. */
  lemma WholeWordIsFound(lower: char -> char, source: string, text: string, w: Word)
    requires IsWordOf(source, w) && Find(Lowered(lower, source), text, 0) == -1
    ensures Lowered(lower, w.word) != text
  {
    var low := Lowered(lower, source);
    assert low[w.start..w.end] == Lowered(lower, w.word);
    assert !OccursAt(low, text, w.start);
  }

  ghost predicate SameAsTouched(low: string, text: string, words: seq<Word>, g: Group, before: Aligned, after: Aligned)
    requires text != ""
  {
    forall k :: 0 <= k < |words| ==>
      Get(after, k) == if TouchesFrom(low, text, words[k], 0) then Some(g) else Get(before, k)
  }

  lemma NothingPending(low: string, text: string, words: seq<Word>, g: Group, before: Aligned, after: Aligned, pos: nat)
    requires text != "" && Find(low, text, pos) == -1 && SamePending(low, text, words, g, before, 0, after, pos)
    ensures SameAsTouched(low, text, words, g, before, after)
  {
    forall k | 0 <= k < |words|
      ensures Get(after, k) == if TouchesFrom(low, text, words[k], 0) then Some(g) else Get(before, k)
    {
      TouchesStep(low, text, words[k], pos);
      assert Pending(low, text, words, g, before, 0, k) == Pending(low, text, words, g, after, pos, k);
    }
  }

  /** The search for one group's text. */
  method MarkOccurrences(low: string, text: string, words: seq<Word>, g: Group, before: Aligned)
    returns (after: Aligned, matched: bool)
    requires text != "" && Within(before, |words|)
    ensures Within(after, |words|) && SameAsTouched(low, text, words, g, before, after)
    ensures !matched ==> after == before && Find(low, text, 0) == -1
  {
    after, matched := before, false;
    var pos := 0;
    var s := Find(low, text, pos);
    while s >= 0
      invariant s == Find(low, text, pos) && pos <= |low|
      invariant Within(after, |words|) && SamePending(low, text, words, g, before, 0, after, pos)
      invariant !matched ==> pos == 0 && after == before
      decreases |low| - pos
    {
      ghost var was, from := after, pos;
      pos := s + |text|;
      after := Mark(words, g, s, pos, after);
      MarkStep(low, text, words, g, before, was, after, from, pos);
      matched := true;
      s := Find(low, text, pos);
    }
    NothingPending(low, text, words, g, before, after, pos);
  }

  /** The loop over whole words, run when the text was not found: it adds nothing. */
  method MarkWholeWords(lower: char -> char, source: string, text: string, words: seq<Word>, g: Group, before: Aligned)
    returns (after: Aligned)
    requires Find(Lowered(lower, source), text, 0) == -1 && AreWords(source, words)
    ensures after == before
  {
    after := before;
    var wi: nat := 0;
    while wi < |words|
      invariant after == before
    {
      WholeWordIsFound(lower, source, text, words[wi]);
      if Lowered(lower, words[wi].word) == text {
        after := after[wi := g];
      }
      wi := wi + 1;
    }
  }

  /** One group of _align_tags_to_words. */
  method AlignGroup(lower: char -> char, source: string, words: seq<Word>, g: Group, before: Aligned)
    returns (after: Aligned)
    requires Within(before, |words|) && AreWords(source, words)
    ensures Within(after, |words|)
    ensures forall k :: 0 <= k < |words| ==>
      Get(after, k) == if Touching(lower, source, words[k])(g) then Some(g) else Get(before, k)
  {
    after := before;
    var text, low := Lowered(lower, Strip(g.entity)), Lowered(lower, source);
    if text == "" {
      return;
    }
    var matched;
    after, matched := MarkOccurrences(low, text, words, g, before);
    if !matched {
      after := MarkWholeWords(lower, source, text, words, g, after);
    }
  }

  /** _align_tags_to_words: each word has the last group that touches it. */
  method AlignTagsToWords(lower: char -> char, source: string, words: seq<Word>, groups: seq<Group>)
    returns (m: Aligned)
    requires AreWords(source, words)
    ensures Within(m, |words|)
    ensures forall k :: 0 <= k < |words| ==> Get(m, k) == LastTouching(lower, source, groups, |groups|, words[k])
  {
    m := map[];
    for i := 0 to |groups|
      invariant Within(m, |words|)
      invariant forall k :: 0 <= k < |words| ==> Get(m, k) == LastTouching(lower, source, groups, i, words[k])
    {
      m := AlignGroup(lower, source, words, groups[i], m);
    }
  }

  datatype TokenPrediction = TokenPrediction(token: string, tag: string, index: nat, start: nat, end: nat)

  function TagOf(g: Option<Group>): string { if g.Some? then g.value.tag else "O" }

  /** _build_ner_token_predictions. */
  method BuildTokenPredictions(words: seq<Word>, aligned: Aligned) returns (tokens: seq<TokenPrediction>)
    ensures |tokens| == |words|
    ensures forall i :: 0 <= i < |words| ==>
      tokens[i] == TokenPrediction(words[i].word, TagOf(Get(aligned, i)), i, words[i].start, words[i].end)
  {
    tokens := [];
    for i := 0 to |words|
      invariant |tokens| == i
      invariant forall k :: 0 <= k < i ==>
        tokens[k] == TokenPrediction(words[k].word, TagOf(Get(aligned, k)), k, words[k].start, words[k].end)
    {
      var tag := if i in aligned then aligned[i].tag else "O";
      tokens := tokens + [TokenPrediction(words[i].word, tag, i, words[i].start, words[i].end)];
    }
  }

  /** The predictions for one source text: each word with the tag of the last group touching it. */
  method PredictTokens(lower: char -> char, source: string, preds: seq<Prediction>)
    returns (tokens: seq<TokenPrediction>)
    ensures
      var words, groups := Spans(source, 0), Groups(preds, |preds|);
      && |tokens| == |words|
      && forall i :: 0 <= i < |words| ==>
           var g, t := LastTouching(lower, source, groups, |groups|, words[i]), tokens[i];
           && t.index == i && t.token == words[i].word && t.start == words[i].start && t.end == words[i].end
           && (g.Some? ==> t.tag == g.value.tag) && (g.None? ==> t.tag == "O")
  {
    var words := BuildWordPositions(source);
    WordPositionsExact(source);
    var groups := GroupBpeTokens(preds);
    var aligned := AlignTagsToWords(lower, source, words, groups);
    tokens := BuildTokenPredictions(words, aligned);
  }

  // ---------------------------------------------------------------------------------------
  // What occurrences are
  // ---------------------------------------------------------------------------------------

  /** Nothing is left out behind the last of them. */
  lemma {:induction false} OccurrencesAreAll(s: string, t: string, from: nat)
    requires t != ""
    ensures
      var o := Occurrences(s, t, from);
      var lo := if o == [] then from else o[|o| - 1] + |t|;
      forall i :: lo <= i ==> !OccursAt(s, t, i)
    decreases |s| - from
  {
    var i := Find(s, t, from);
    if i != -1 {
      var next := i + |t|;
      OccurrencesAreAll(s, t, next);
      OccurrencesStep(s, t, from, i, next);
    }
  }

  lemma {:induction false} OccurrencesStep(s: string, t: string, from: nat, i: nat, next: nat)
    requires t != "" && Find(s, t, from) == i && next == i + |t|
    ensures Occurrences(s, t, from) == [i] + Occurrences(s, t, next)
  {
  }

  /**
   Which groups touch a word: those with an occurrence of their stripped text, case aside, that has a
   position in common with it.
   */
  lemma TouchesExactly(lower: char -> char, source: string, g: Group, w: Word)
    requires w.start < w.end
    ensures
      var text, low := Lowered(lower, Strip(g.entity)), Lowered(lower, source);
      Touching(lower, source, w)(g) <==> text != "" && SharesSome(w, Occurrences(low, text, 0), |text|)
  {
    var text, low := Lowered(lower, Strip(g.entity)), Lowered(lower, source);
    if text != "" {
      TouchesIsSharing(low, text, w, Occurrences(low, text, 0));
    }
  }

  lemma TouchesIsSharing(low: string, text: string, w: Word, starts: seq<nat>)
    requires w.start < w.end && text != "" && starts == Occurrences(low, text, 0)
    ensures TouchesFrom(low, text, w, 0) <==> SharesSome(w, starts, |text|)
  {
    forall k | 0 <= k < |starts|
      ensures Overlaps(w, starts[k], starts[k] + |text|) <==> SharesPosition(w, starts[k], starts[k] + |text|)
    {
      OverlapsExactly(w, starts[k], starts[k] + |text|);
    }
  }

  ghost predicate SharesSome(w: Word, starts: seq<nat>, length: nat) {
    exists k :: 0 <= k < |starts| && SharesPosition(w, starts[k], starts[k] + length)
  }

  /** Occurrences do not overlap, and between two of them none was left out. */
  lemma OccurrencesAreGreedy(s: string, t: string, from: nat, n: nat)
    requires t != "" && n < |Occurrences(s, t, from)|
    ensures
      var o := Occurrences(s, t, from);
      var lo := if n == 0 then from else o[n - 1] + |t|;
      lo <= o[n] && OccursAt(s, t, o[n]) && forall i :: lo <= i < o[n] ==> !OccursAt(s, t, i)
  {
    NextOccurrence(s, t, from, Occurrences(s, t, from), n);
  }

  predicate FirstAt(s: string, t: string, lo: nat, i: nat) {
    lo <= i && OccursAt(s, t, i) && forall j :: lo <= j < i ==> !OccursAt(s, t, j)
  }

  function EndBefore(from: nat, o: seq<nat>, length: nat, n: nat): nat
    requires n <= |o|
  {
    if n == 0 then from else o[n - 1] + length
  }

  lemma {:induction false} NextOccurrence(s: string, t: string, from: nat, o: seq<nat>, n: nat)
    requires t != "" && o == Occurrences(s, t, from) && n < |o|
    ensures FirstAt(s, t, EndBefore(from, o, |t|, n), o[n])
    decreases n
  {
    var i := Find(s, t, from);
    var next := i + |t|;
    OccurrencesStep(s, t, from, i, next);
    var later := Occurrences(s, t, next);
    if n > 0 {
      var before := n - 1;
      NextOccurrence(s, t, next, later, before);
      assert o[n] == later[before];
      assert EndBefore(from, o, |t|, n) == EndBefore(next, later, |t|, before);
    }
  }

  lemma {:induction false} LastWhereExactly(groups: seq<Group>, p: Group -> bool, n: nat)
    requires n <= |groups|
    ensures
      var g := LastWhere(groups, p, n);
      if g.None? then forall j :: 0 <= j < n ==> !p(groups[j])
      else exists i :: 0 <= i < n && g.value == groups[i] && p(groups[i]) && forall j :: i < j < n ==> !p(groups[j])
  {
    if n > 0 {
      LastWhereExactly(groups, p, n - 1);
    }
  }

  /** A word has the tag of the last group with an occurrence touching it, and "O" when there is none. */
  lemma LastTouchingExactly(lower: char -> char, source: string, groups: seq<Group>, w: Word)
    ensures
      var g := LastTouching(lower, source, groups, |groups|, w);
      if g.None? then forall j :: 0 <= j < |groups| ==> !Touching(lower, source, w)(groups[j])
      else exists i :: 0 <= i < |groups| && g.value == groups[i] && Touching(lower, source, w)(groups[i]) &&
             forall j :: i < j < |groups| ==> !Touching(lower, source, w)(groups[j])
  {
    LastWhereExactly(groups, Touching(lower, source, w), |groups|);
  }
}
