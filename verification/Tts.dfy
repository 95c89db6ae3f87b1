/**
 Text-to-speech (services/inference-service/services/tts_service.py): texts are cut into chunks of
 bounded length, each chunk is spoken on its own, and the samples are put together again per text.
 */
module Tts {
  import opened Sequences
  import opened Texts

  // ---------------------------------------------------------------------------------------
  // Normalizing
  // ---------------------------------------------------------------------------------------

  function Join(words: seq<string>): string {
    if words == [] then "" else if |words| == 1 then words[0] else words[0] + (" " + Join(words[1..]))
  }

  /** _normalize_text. */
  function Normalize(text: string): string { Strip(Join(Split(text, 0))) }

  lemma JoinKeeps(word: string, rest: seq<string>)
    requires forall k :: 0 <= k < |word| ==> !IsSpace(word[k])
    ensures NonSpace(Join([word] + rest)) == word + NonSpace(Join(rest))
  {
    NoSpace(word);
    if rest != [] {
      assert Join([word] + rest) == word + (" " + Join(rest)) by {
        assert ([word] + rest)[1..] == rest;
      }
      NonSpaceAdds(word, " " + Join(rest));
      SpaceAdds(Join(rest));
    }
  }

  lemma SpaceAdds(s: string)
    ensures NonSpace(" " + s) == NonSpace(s)
  {
    NonSpaceAdds(" ", s);
    AllSpace(" ");
  }

  lemma {:induction false} SplitKeeps(s: string, i: nat)
    requires i <= |s|
    ensures NonSpace(Join(Split(s, i))) == NonSpace(s[i..])
    decreases |s| - i
  {
    var a := SkipSpace(s, i);
    NonSpaceSkips(s, i, a);
    if a < |s| {
      var b := WordEnd(s, a);
      NonSpaceTakes(s, a, b);
      SplitKeeps(s, b);
      JoinKeeps(s[a..b], Split(s, b));
    }
  }

  /** Normalizing moves whitespace only. */
  lemma NormalizeKeeps(text: string)
    ensures NonSpace(Normalize(text)) == NonSpace(text) && Trimmed(Normalize(text))
  {
    SplitKeeps(text, 0);
    assert text[0..] == text;
    StripKeepsText(Join(Split(text, 0)));
    StripIsTrimmed(Join(Split(text, 0)));
  }

  predicate IsBare(word: string) { word != "" && forall k :: 0 <= k < |word| ==> !IsSpace(word[k]) }

  predicate AreBare(words: seq<string>) { forall i :: 0 <= i < |words| ==> IsBare(words[i]) }

  lemma {:induction false} SplitIsBare(s: string, i: nat)
    requires i <= |s|
    ensures AreBare(Split(s, i))
    decreases |s| - i
  {
    var a := SkipSpace(s, i);
    if a < |s| {
      SplitIsBare(s, WordEnd(s, a));
    }
  }

  /** The next word of a text, where it is known to stand. */
  lemma SplitTakes(s: string, i: nat, b: nat)
    requires i < b <= |s| && (forall k :: i <= k < b ==> !IsSpace(s[k])) && (b < |s| ==> IsSpace(s[b]))
    ensures Split(s, i) == [s[i..b]] + Split(s, b)
  {
    assert !IsSpace(s[i]);
    var end := WordEnd(s, i);
    assert end == b;
  }

  lemma SplitSkips(s: string, b: nat)
    requires b < |s| && IsSpace(s[b])
    ensures Split(s, b) == Split(s, b + 1)
  {
    assert SkipSpace(s, b) == SkipSpace(s, b + 1);
  }

  /** How a joined text goes on at its first word. */
  lemma JoinBegins(words: seq<string>, s: string, i: nat, b: nat)
    requires words != [] && i <= |s| && s[i..] == Join(words) && b == i + |words[0]|
    ensures b <= |s| && s[i..b] == words[0]
    ensures |words| == 1 ==> b == |s|
    ensures |words| > 1 ==> b < |s| && s[b] == ' ' && s[b + 1..] == Join(words[1..])
  {
    var w, rest := words[0], s[i..];
    assert rest[..|w|] == w;
    assert s[i..b] == rest[..|w|];
    if |words| > 1 {
      assert rest[|w|..] == " " + Join(words[1..]);
      assert s[b..] == rest[|w|..];
      assert s[b] == s[b..][0];
      assert s[b + 1..] == s[b..][1..];
    }
  }

  lemma SplitBegins(words: seq<string>, s: string, i: nat, b: nat)
    requires words != [] && IsBare(words[0]) && i <= |s| && s[i..] == Join(words) && b == i + |words[0]|
    ensures b <= |s| && Split(s, i) == [words[0]] + Split(s, b)
    ensures |words| == 1 ==> b == |s|
    ensures |words| > 1 ==> b < |s| && Split(s, b) == Split(s, b + 1) && s[b + 1..] == Join(words[1..])
  {
    JoinBegins(words, s, i, b);
    assert forall k :: i <= k < b ==> s[k] == s[i..b][k - i];
    SplitTakes(s, i, b);
    if |words| > 1 {
      SplitSkips(s, b);
    }
  }

  lemma {:induction false} SplitUndoesJoin(words: seq<string>, s: string, i: nat)
    requires AreBare(words) && i <= |s| && s[i..] == Join(words)
    ensures Split(s, i) == words
    decreases |words|
  {
    if words != [] {
      var b := i + |words[0]|;
      SplitBegins(words, s, i, b);
      if |words| > 1 {
        SplitUndoesJoin(words[1..], s, b + 1);
      }
      assert words == [words[0]] + words[1..];
    }
  }

  lemma {:induction false} JoinIsTrimmed(words: seq<string>)
    requires AreBare(words)
    ensures Trimmed(Join(words)) && (words != [] ==> Join(words) != "")
  {
    if |words| > 1 {
      JoinIsTrimmed(words[1..]);
    }
  }

  /** Normalizing keeps the words, and puts one space between each two of them. */
  lemma NormalizeExactly(text: string)
    ensures Split(Normalize(text), 0) == Split(text, 0)
    ensures Normalize(text) == Join(Split(text, 0))
  {
    var words := Split(text, 0);
    SplitIsBare(text, 0);
    JoinIsTrimmed(words);
    var joined := Join(words);
    if joined != "" {
      TrimEndKeepsFirst(joined);
      assert joined[SkipSpace(joined, 0)..] == joined;
    }
    assert joined[0..] == joined;
    SplitUndoesJoin(words, joined, 0);
  }

  // ---------------------------------------------------------------------------------------
  // Chunking
  // ---------------------------------------------------------------------------------------

  /** Sentence ends, the danda, comma and space, in order of preference. */
  const SEPARATORS := ['.', '?', '!', '\U{0964}', ',', ' ']

  /** str.rfind(c, 0, hi). */
  function Rfind(s: string, c: char, hi: nat): (p: int)
    requires hi <= |s|
    ensures -1 <= p < hi && (p >= 0 ==> s[p] == c)
    ensures forall k :: p < k < hi ==> s[k] != c
  {
    if hi == 0 then -1 else if s[hi - 1] == c then hi - 1 else Rfind(s, c, hi - 1)
  }

  /** Just after the last preferred separator, or at the limit. */
  function SplitPos(text: string, max: nat, from: nat): nat
    requires max <= |text| && from <= |SEPARATORS|
    decreases |SEPARATORS| - from
  {
    if from == |SEPARATORS| then max
    else
      var p := Rfind(text, SEPARATORS[from], max);
      if p > 0 then p + 1 else SplitPos(text, max, from + 1)
  }

  predicate OccursBelow(text: string, c: char, max: nat)
    requires max <= |text|
  {
    exists k :: 0 < k < max && text[k] == c
  }

  /** None of the separators from one number up to another stands past the first character. */
  predicate NoneBelow(text: string, max: nat, from: nat, to: nat)
    requires max <= |text| && to <= |SEPARATORS|
  {
    forall j :: from <= j < to ==> !OccursBelow(text, SEPARATORS[j], max)
  }

  predicate LastBelow(text: string, max: nat, c: char, p: nat)
    requires max <= |text|
  {
    2 <= p <= max && text[p - 1] == c && forall k :: p <= k < max ==> text[k] != c
  }

  /** The first separator found past the first character decides, at its last place below the limit. */
  lemma {:induction false} SplitPosExact(text: string, max: nat, from: nat) returns (j: nat)
    requires 1 <= max <= |text| && from <= |SEPARATORS|
    ensures from <= j <= |SEPARATORS| && NoneBelow(text, max, from, j)
    ensures
      var p := SplitPos(text, max, from);
      1 <= p <= max && if j == |SEPARATORS| then p == max else LastBelow(text, max, SEPARATORS[j], p)
    decreases |SEPARATORS| - from
  {
    if from == |SEPARATORS| || Rfind(text, SEPARATORS[from], max) > 0 {
      j := from;
    } else {
      j := SplitPosExact(text, max, from + 1);
    }
  }

  /** The six characters in order of preference, and the limit when none of them is there. */
  predicate PreferredCut(text: string, max: nat, p: nat)
    requires max <= |text|
  {
    if OccursBelow(text, '.', max) then LastBelow(text, max, '.', p)
    else if OccursBelow(text, '?', max) then LastBelow(text, max, '?', p)
    else if OccursBelow(text, '!', max) then LastBelow(text, max, '!', p)
    else if OccursBelow(text, '\U{0964}', max) then LastBelow(text, max, '\U{0964}', p)
    else if OccursBelow(text, ',', max) then LastBelow(text, max, ',', p)
    else if OccursBelow(text, ' ', max) then LastBelow(text, max, ' ', p)
    else p == max
  }

  lemma CutIsPreferred(text: string, max: nat)
    requires 1 <= max <= |text|
    ensures 1 <= SplitPos(text, max, 0) <= max && PreferredCut(text, max, SplitPos(text, max, 0))
  {
    var j := SplitPosExact(text, max, 0);
    assert forall i :: 0 <= i < j ==> !OccursBelow(text, SEPARATORS[i], max);
    assert j < |SEPARATORS| ==> OccursBelow(text, SEPARATORS[j], max) by {
      if j < |SEPARATORS| {
        assert text[SplitPos(text, max, 0) - 1] == SEPARATORS[j];
      }
    }
  }

  function Rest(text: string, max: nat): (r: string)
    requires 1 <= max < |text|
  {
    Strip(text[SplitPos(text, max, 0)..])
  }

  lemma RestIsShorter(text: string, max: nat)
    requires 1 <= max < |text| && Trimmed(text)
    ensures |Rest(text, max)| < |text| && Trimmed(Rest(text, max)) && Rest(text, max) != ""
  {
    var p := SplitPos(text, max, 0);
    var j := SplitPosExact(text, max, 0);
    StripIsTrimmed(text[p..]);
  }

  /** The chunks of a trimmed text. */
  function Chunks(text: string, max: nat): seq<string>
    requires max >= 1 && Trimmed(text)
    decreases |text|
  {
    if text == "" then []
    else if |text| <= max then [text]
    else
      RestIsShorter(text, max);
      [Strip(text[..SplitPos(text, max, 0)])] + Chunks(Rest(text, max), max)
  }

  /** As long as the text is over the limit, a chunk is cut off before it and stripped, and the rest stripped. */
  ghost predicate CutWherePreferred(text: string, max: nat, chunks: seq<string>)
    decreases |chunks|
  {
    if |text| <= max then chunks == [text]
    else
      && chunks != []
      && (exists p :: 1 <= p <= max && PreferredCut(text, max, p) && chunks[0] == Strip(text[..p])
                      && CutWherePreferred(Strip(text[p..]), max, chunks[1..]))
  }

  lemma {:induction false} ChunksAreCutWherePreferred(text: string, max: nat)
    requires max >= 1 && Trimmed(text) && text != ""
    ensures CutWherePreferred(text, max, Chunks(text, max))
    decreases |text|
  {
    if |text| > max {
      var p := SplitPos(text, max, 0);
      CutIsPreferred(text, max);
      RestIsShorter(text, max);
      ChunksAreCutWherePreferred(Rest(text, max), max);
      assert Chunks(text, max)[1..] == Chunks(Rest(text, max), max);
      assert Chunks(text, max)[0] == Strip(text[..p]);
    }
  }

  function NonEmpty(chunks: seq<string>): seq<string> {
    if chunks == [] then []
    else
      var last := chunks[|chunks| - 1];
      NonEmpty(chunks[..|chunks| - 1]) + if last == "" then [] else [last]
  }

  lemma {:induction false} NonEmptyKeeps(chunks: seq<string>)
    requires forall i :: 0 <= i < |chunks| ==> chunks[i] != ""
    ensures NonEmpty(chunks) == chunks
  {
    if chunks != [] {
      NonEmptyKeeps(chunks[..|chunks| - 1]);
    }
  }

  function ChunkTextSpec(text: string, max: nat): seq<string>
    requires max >= 1
  {
    NormalizeKeeps(text);
    if Normalize(text) == "" then [""] else Chunks(Normalize(text), max)
  }

  method FindSplit(text: string, max: nat) returns (p: nat)
    requires 1 <= max <= |text|
    ensures p == SplitPos(text, max, 0)
  {
    p := max;
    for j := 0 to |SEPARATORS|
      invariant p == max && SplitPos(text, max, 0) == SplitPos(text, max, j)
    {
      var pos := Rfind(text, SEPARATORS[j], max);
      if pos > 0 {
        p := pos + 1;
        return;
      }
    }
  }

  ghost predicate Cutting(whole: string, max: nat, chunks: seq<string>, text: string)
    requires max >= 1 && Trimmed(whole)
  {
    && Trimmed(text) && text != ""
    && (forall i :: 0 <= i < |chunks| ==> chunks[i] != "")
    && chunks + Chunks(text, max) == Chunks(whole, max)
  }

  lemma CuttingStarts(whole: string, max: nat)
    requires max >= 1 && Trimmed(whole) && whole != ""
    ensures Cutting(whole, max, [], whole)
  {
    assert [] + Chunks(whole, max) == Chunks(whole, max);
  }

  lemma CuttingStep(whole: string, max: nat, chunks: seq<string>, text: string)
    requires max >= 1 && Trimmed(whole) && Cutting(whole, max, chunks, text) && |text| > max
    ensures |Rest(text, max)| < |text|
    ensures Cutting(whole, max, chunks + [Strip(text[..SplitPos(text, max, 0)])], Rest(text, max))
  {
    var p := SplitPos(text, max, 0);
    RestIsShorter(text, max);
    var j := SplitPosExact(text, max, 0);
    StripIsTrimmed(text[..p]);
    Associates(chunks, [Strip(text[..p])], Chunks(Rest(text, max), max));
  }

  lemma CuttingEnds(whole: string, max: nat, chunks: seq<string>, text: string)
    requires max >= 1 && Trimmed(whole) && Cutting(whole, max, chunks, text) && |text| <= max
    ensures NonEmpty(chunks + [text]) == Chunks(whole, max)
  {
    NonEmptyKeeps(chunks + [text]);
  }

  /** The while loop of _chunk_text, and what follows it. */
  method CutLongText(whole: string, max: nat) returns (chunks: seq<string>)
    requires max >= 1 && Trimmed(whole) && whole != ""
    ensures chunks == Chunks(whole, max)
  {
    chunks := [];
    var text := whole;
    CuttingStarts(whole, max);
    while |text| > max
      invariant Cutting(whole, max, chunks, text)
      decreases |text|
    {
      CuttingStep(whole, max, chunks, text);
      var p := FindSplit(text, max);
      chunks := chunks + [Strip(text[..p])];
      text := Strip(text[p..]);
    }
    CuttingEnds(whole, max, chunks, text);
    if text != "" {
      chunks := chunks + [text];
    }
    chunks := NonEmpty(chunks);
  }

  /** _chunk_text. */
  method ChunkText(source: string, max: nat) returns (chunks: seq<string>)
    requires max >= 1
    ensures chunks == ChunkTextSpec(source, max)
    ensures
      var text := Join(Split(source, 0));
      if text == "" then chunks == [""] else CutWherePreferred(text, max, chunks)
  {
    var text := Normalize(source);
    NormalizeKeeps(source);
    NormalizeExactly(source);
    if text != "" {
      ChunksAreCutWherePreferred(text, max);
    }
    if text == "" {
      chunks := [""];
    } else if |text| <= max {
      chunks := [text];
    } else {
      chunks := CutLongText(text, max);
    }
  }

  // ---------------------------------------------------------------------------------------
  // What chunking keeps
  // ---------------------------------------------------------------------------------------

  function Concat(pieces: seq<string>): string {
    if pieces == [] then "" else pieces[0] + Concat(pieces[1..])
  }

  /** Every chunk has text, and no more than the limit. */
  lemma {:induction false} ChunksFit(text: string, max: nat, i: nat)
    requires max >= 1 && Trimmed(text) && i < |Chunks(text, max)|
    ensures 1 <= |Chunks(text, max)[i]| <= max && Trimmed(Chunks(text, max)[i])
    decreases |text|
  {
    if |text| > max {
      RestIsShorter(text, max);
      var j := SplitPosExact(text, max, 0);
      StripIsTrimmed(text[..SplitPos(text, max, 0)]);
      if i > 0 {
        ChunksFit(Rest(text, max), max, i - 1);
      }
    }
  }

  lemma CutKeepsText(text: string, p: nat, later: seq<string>)
    requires p <= |text| && NonSpace(Concat(later)) == NonSpace(Strip(text[p..]))
    ensures NonSpace(Concat([Strip(text[..p])] + later)) == NonSpace(text)
  {
    assert ([Strip(text[..p])] + later)[1..] == later;
    NonSpaceAdds(Strip(text[..p]), Concat(later));
    StripKeepsText(text[..p]);
    StripKeepsText(text[p..]);
    NonSpaceAdds(text[..p], text[p..]);
    assert text == text[..p] + text[p..];
  }

  /** Nothing but whitespace is lost between chunks. */
  lemma {:induction false} ChunksKeepText(text: string, max: nat)
    requires max >= 1 && Trimmed(text)
    ensures NonSpace(Concat(Chunks(text, max))) == NonSpace(text)
    decreases |text|
  {
    if text == "" {
    } else if |text| <= max {
      assert [text][1..] == [] && text + "" == text;
    } else {
      var j := SplitPosExact(text, max, 0);
      RestIsShorter(text, max);
      ChunksKeepText(Rest(text, max), max);
      CutKeepsText(text, SplitPos(text, max, 0), Chunks(Rest(text, max), max));
    }
  }

  /**
   Chunking any text: one chunk at least; each chunk within the limit, and empty only when the text is
   blank; together they hold every character of the text that is no whitespace, in order.
   */
  lemma ChunkTextExact(source: string, max: nat)
    requires max >= 1
    ensures
      var chunks := ChunkTextSpec(source, max);
      && |chunks| >= 1
      && NonSpace(Concat(chunks)) == NonSpace(source)
      && forall i :: 0 <= i < |chunks| ==> |chunks[i]| <= max && (chunks[i] == "" <==> NonSpace(source) == "")
  {
    var text, chunks := Normalize(source), ChunkTextSpec(source, max);
    NormalizeKeeps(source);
    if text == "" {
      assert chunks == [""] && [""][1..] == [] && "" + "" == "";
    } else {
      NonSpaceOfTrimmed(text);
      ChunksKeepText(text, max);
      forall i | 0 <= i < |chunks|
        ensures 1 <= |chunks[i]| <= max
      {
        ChunksFit(text, max, i);
      }
    }
  }

  lemma NonSpaceOfTrimmed(text: string)
    requires Trimmed(text) && text != ""
    ensures NonSpace(text) != ""
  {
  }
}
