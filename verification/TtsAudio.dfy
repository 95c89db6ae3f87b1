/**
 Text-to-speech, around the chunks (services/inference-service/services/tts_service.py): items are
 expanded into chunk items, one upstream call each, and the samples are merged per item again, then
 fitted to the requested duration. Durations are reals; of the resampled audio only its length counts.
 */
module TtsAudio {
  import opened Options
  import opened Ordering
  import opened Sequences
  import opened Tts

  const MAX_CHUNK_LENGTH := 400

  datatype Item = Item(source: string, duration: Option<real>)
  datatype ChunkItem = ChunkItem(source: string, index: nat, duration: Option<real>)

  type Samples = seq<int>

  // ---------------------------------------------------------------------------------------
  // Expansion
  // ---------------------------------------------------------------------------------------

  /** An item with its text already cut. */
  datatype Pieced = Pieced(pieces: seq<string>, duration: Option<real>)

  function Cut(item: Item): Pieced { Pieced(ChunkTextSpec(item.source, MAX_CHUNK_LENGTH), item.duration) }

  function AllCut(items: seq<Item>): (r: seq<Pieced>)
    ensures |r| == |items|
  {
    if items == [] then [] else AllCut(items[..|items| - 1]) + [Cut(items[|items| - 1])]
  }

  function PieceItems(pieces: seq<string>, n: nat, index: nat, duration: Option<real>): (r: seq<ChunkItem>)
    requires n <= |pieces|
    ensures |r| == n
  {
    if n == 0 then [] else PieceItems(pieces, n - 1, index, duration) + [ChunkItem(pieces[n - 1], index, duration)]
  }

  /** The chunk items of the first n items. */
  function Expanded(items: seq<Pieced>, n: nat): seq<ChunkItem>
    requires n <= |items|
  {
    if n == 0 then []
    else Expanded(items, n - 1) + PieceItems(items[n - 1].pieces, |items[n - 1].pieces|, n - 1, items[n - 1].duration)
  }

  lemma {:induction false} CutAt(items: seq<Item>, i: nat)
    requires i < |items|
    ensures AllCut(items)[i] == Cut(items[i])
  {
    if i < |items| - 1 {
      CutAt(items[..|items| - 1], i);
    }
  }

  /** The chunks of one item are appended. */
  method AppendPieces(before: seq<ChunkItem>, pieces: seq<string>, index: nat, duration: Option<real>)
    returns (chunks: seq<ChunkItem>)
    ensures chunks == before + PieceItems(pieces, |pieces|, index, duration)
  {
    chunks := before;
    for k := 0 to |pieces|
      invariant chunks == before + PieceItems(pieces, k, index, duration)
    {
      chunks := chunks + [ChunkItem(pieces[k], index, duration)];
    }
  }

  method CutItem(items: seq<Item>, i: nat, ghost parts: seq<Pieced>) returns (p: Pieced)
    requires i < |items| && parts == AllCut(items)
    ensures p == parts[i]
  {
    CutAt(items, i);
    var pieces := ChunkText(items[i].source, MAX_CHUNK_LENGTH);
    p := Pieced(pieces, items[i].duration);
  }

  lemma ExpandedStep(parts: seq<Pieced>, i: nat, before: seq<ChunkItem>, after: seq<ChunkItem>)
    requires i < |parts| && before == Expanded(parts, i)
    requires after == before + PieceItems(parts[i].pieces, |parts[i].pieces|, i, parts[i].duration)
    ensures after == Expanded(parts, i + 1)
  {
  }

  /** preprocess_input. */
  method Expand(items: seq<Item>) returns (chunks: seq<ChunkItem>)
    ensures chunks == All(AllCut(items))
  {
    ghost var parts := AllCut(items);
    chunks := [];
    for i := 0 to |items|
      invariant chunks == Expanded(parts, i)
    {
      ghost var before := chunks;
      var p := CutItem(items, i, parts);
      chunks := AppendPieces(chunks, p.pieces, i, p.duration);
      ExpandedStep(parts, i, before, chunks);
    }
  }

  // ---------------------------------------------------------------------------------------
  // Merging
  // ---------------------------------------------------------------------------------------

  /** The results of the first n chunks with this item index. */
  function Collected(chunks: seq<ChunkItem>, results: seq<Samples>, n: nat, index: int): seq<Samples>
    requires n <= |chunks| && n <= |results|
  {
    if n == 0 then []
    else Collected(chunks, results, n - 1, index) + if chunks[n - 1].index == index then [results[n - 1]] else []
  }

  function Concatenated(parts: seq<Samples>): Samples {
    if parts == [] then [] else Concatenated(parts[..|parts| - 1]) + parts[|parts| - 1]
  }

  function IndexesIn(chunks: seq<ChunkItem>, n: nat): set<int>
    requires n <= |chunks|
  {
    if n == 0 then {} else IndexesIn(chunks, n - 1) + {chunks[n - 1].index}
  }

  ghost predicate Merged(chunks: seq<ChunkItem>, results: seq<Samples>, n: nat, merged: map<int, seq<Samples>>)
    requires n <= |chunks| && n <= |results|
  {
    && merged.Keys == IndexesIn(chunks, n)
    && forall i :: i in merged ==> merged[i] == Collected(chunks, results, n, i)
  }

  lemma {:induction false} NotCollected(chunks: seq<ChunkItem>, results: seq<Samples>, n: nat, index: int)
    requires n <= |chunks| && n <= |results| && index !in IndexesIn(chunks, n)
    ensures Collected(chunks, results, n, index) == []
  {
    if n > 0 {
      NotCollected(chunks, results, n - 1, index);
    }
  }

  function GetParts(merged: map<int, seq<Samples>>, i: int): seq<Samples> { if i in merged then merged[i] else [] }

  lemma MergedStep(chunks: seq<ChunkItem>, results: seq<Samples>, n: nat,
                                      merged: map<int, seq<Samples>>)
    requires n < |chunks| && n < |results| && Merged(chunks, results, n, merged)
    ensures
      var i := chunks[n].index;
      Merged(chunks, results, n + 1, merged[i := GetParts(merged, i) + [results[n]]])
  {
    var i := chunks[n].index;
    if i !in merged {
      NotCollected(chunks, results, n, i);
    }
  }

  function Shorter(a: nat, b: nat): nat { if a < b then a else b }

  /** The duration the last of the first n chunks with this index asks for. */
  function DurationAsked(chunks: seq<ChunkItem>, n: nat, index: int): Option<real>
    requires n <= |chunks|
  {
    if n == 0 then None
    else if chunks[n - 1].index == index then chunks[n - 1].duration
    else DurationAsked(chunks, n - 1, index)
  }

  ghost predicate Asked(chunks: seq<ChunkItem>, n: nat, durations: map<int, Option<real>>)
    requires n <= |chunks|
  {
    && durations.Keys == IndexesIn(chunks, n)
    && forall i :: i in durations ==> durations[i] == DurationAsked(chunks, n, i)
  }

  lemma AskedStep(chunks: seq<ChunkItem>, n: nat, durations: map<int, Option<real>>)
    requires n < |chunks| && Asked(chunks, n, durations)
    ensures Asked(chunks, n + 1, durations[chunks[n].index := chunks[n].duration])
  {
  }

  /** What merging returns: per item index met, ascending, the samples joined and the duration asked for. */
  ghost predicate IsMerge(chunks: seq<ChunkItem>, results: seq<Samples>, order: seq<int>, outputs: seq<Samples>,
                          durations: seq<Option<real>>)
  {
    var n := Shorter(|chunks|, |results|);
    && Ascending(order) && Lists(order, IndexesIn(chunks, n)) && |outputs| == |order| == |durations|
    && (forall i :: 0 <= i < |order| ==> outputs[i] == Concatenated(Collected(chunks, results, n, order[i])))
    && forall i :: 0 <= i < |order| ==> durations[i] == DurationAsked(chunks, n, order[i])
  }

  /** The two dictionaries of postprocess_output; chunks and results are paired off. */
  method Regroup(chunks: seq<ChunkItem>, results: seq<Samples>)
    returns (merged: map<int, seq<Samples>>, asked: map<int, Option<real>>)
    ensures
      var n := Shorter(|chunks|, |results|);
      Merged(chunks, results, n, merged) && Asked(chunks, n, asked)
  {
    merged, asked := map[], map[];
    for k := 0 to Shorter(|chunks|, |results|)
      invariant Merged(chunks, results, k, merged) && Asked(chunks, k, asked)
    {
      MergedStep(chunks, results, k, merged);
      AskedStep(chunks, k, asked);
      var i := chunks[k].index;
      merged := merged[i := GetParts(merged, i) + [results[k]]];
      asked := asked[i := chunks[k].duration];
    }
  }

  /** One waveform and one requested duration per item index met, in ascending order. */
  method Merge(chunks: seq<ChunkItem>, results: seq<Samples>)
    returns (order: seq<int>, outputs: seq<Samples>, durations: seq<Option<real>>)
    ensures IsMerge(chunks, results, order, outputs, durations)
  {
    var merged, asked := Regroup(chunks, results);
    ghost var n := Shorter(|chunks|, |results|);
    order := Sorted(merged.Keys);
    outputs, durations := [], [];
    for j := 0 to |order|
      invariant |outputs| == j == |durations|
      invariant forall i :: 0 <= i < j ==> outputs[i] == Concatenated(Collected(chunks, results, n, order[i]))
      invariant forall i :: 0 <= i < j ==> durations[i] == DurationAsked(chunks, n, order[i])
    {
      assert order[j] in order;
      outputs := outputs + [Concatenated(merged[order[j]])];
      durations := durations + [asked[order[j]]];
    }
  }

  // ---------------------------------------------------------------------------------------
  // Merging undoes expansion
  // ---------------------------------------------------------------------------------------

  /** Where the chunks of item n begin. */
  function Offset(items: seq<Pieced>, n: nat): nat
    requires n <= |items|
  {
    if n == 0 then 0 else Offset(items, n - 1) + |items[n - 1].pieces|
  }

  lemma {:induction false} OffsetIsLength(items: seq<Pieced>, n: nat)
    requires n <= |items|
    ensures |Expanded(items, n)| == Offset(items, n)
  {
    if n > 0 {
      OffsetIsLength(items, n - 1);
    }
  }

  predicate NoneWithoutPieces(items: seq<Pieced>) { forall i :: 0 <= i < |items| ==> |items[i].pieces| >= 1 }

  lemma EveryItemHasPieces(items: seq<Item>)
    ensures NoneWithoutPieces(AllCut(items))
  {
    forall i | 0 <= i < |items|
      ensures |AllCut(items)[i].pieces| >= 1
    {
      CutAt(items, i);
      ChunkTextExact(items[i].source, MAX_CHUNK_LENGTH);
    }
  }

  /** Where they end. */
  function End(items: seq<Pieced>, i: nat): nat
    requires i < |items|
  {
    Offset(items, i) + |items[i].pieces|
  }

  lemma {:induction false} EndsBefore(items: seq<Pieced>, i: nat, n: nat)
    requires i < n <= |items| && NoneWithoutPieces(items)
    ensures Offset(items, i) < End(items, i) <= Offset(items, n)
  {
    if i < n - 1 {
      EndsBefore(items, i, n - 1);
    }
  }

  lemma {:induction false} PieceItemAt(pieces: seq<string>, n: nat, index: nat, duration: Option<real>, k: nat)
    requires k < n <= |pieces|
    ensures PieceItems(pieces, n, index, duration)[k] == ChunkItem(pieces[k], index, duration)
  {
    if k < n - 1 {
      PieceItemAt(pieces, n - 1, index, duration, k);
    }
  }

  predicate InStretch(items: seq<Pieced>, i: nat, p: nat)
    requires i < |items|
  {
    Offset(items, i) <= p < End(items, i)
  }

  /** Chunk p belongs to the item in whose stretch p lies, and carries its text and duration. */
  lemma {:induction false} ChunkOfItem(items: seq<Pieced>, n: nat, p: nat) returns (j: nat)
    requires n <= |items| && p < Offset(items, n)
    ensures j < n && InStretch(items, j, p) && |Expanded(items, n)| == Offset(items, n)
    ensures Expanded(items, n)[p] == ChunkItem(items[j].pieces[p - Offset(items, j)], j, items[j].duration)
  {
    OffsetIsLength(items, n);
    OffsetIsLength(items, n - 1);
    if p < Offset(items, n - 1) {
      j := ChunkOfItem(items, n - 1, p);
    } else {
      j := n - 1;
      PieceItemAt(items[j].pieces, |items[j].pieces|, j, items[j].duration, p - Offset(items, j));
    }
  }

  lemma StretchesDisjoint(items: seq<Pieced>, i: nat, j: nat, p: nat)
    requires i < |items| && j < |items| && NoneWithoutPieces(items) && InStretch(items, j, p)
    ensures i == j <==> InStretch(items, i, p)
  {
    if j < i {
      EndsBefore(items, j, i);
    } else if i < j {
      EndsBefore(items, i, j);
    }
  }

  /** All the chunk items of a request. */
  function All(items: seq<Pieced>): (r: seq<ChunkItem>)
    ensures |r| == Offset(items, |items|)
  {
    OffsetIsLength(items, |items|);
    Expanded(items, |items|)
  }

  lemma IndexDecidesStretch(items: seq<Pieced>, p: nat, i: nat)
    requires i < |items| && p < |All(items)| && NoneWithoutPieces(items)
    ensures All(items)[p].index < |items| && (All(items)[p].index == i <==> InStretch(items, i, p))
    ensures InStretch(items, i, p)
      ==> All(items)[p] == ChunkItem(items[i].pieces[p - Offset(items, i)], i, items[i].duration)
  {
    var j := ChunkOfItem(items, |items|, p);
    StretchesDisjoint(items, i, j, p);
  }

  function Clamp(p: nat, lo: nat, hi: nat): nat
    requires lo <= hi
  {
    if p < lo then lo else if p > hi then hi else p
  }

  lemma {:induction false} CollectedIsStretch(items: seq<Pieced>, results: seq<Samples>, p: nat, i: nat)
    requires i < |items| && p <= |All(items)| == |results| && NoneWithoutPieces(items)
    ensures Offset(items, i) <= End(items, i) <= |results|
    ensures Collected(All(items), results, p, i) == results[Offset(items, i)..Clamp(p, Offset(items, i), End(items, i))]
  {
    EndsBefore(items, i, |items|);
    if p > 0 {
      CollectedIsStretch(items, results, p - 1, i);
      IndexDecidesStretch(items, p - 1, i);
    }
  }

  lemma {:induction false} IndexesAreItems(items: seq<Pieced>, p: nat)
    requires p <= |All(items)| && NoneWithoutPieces(items)
    ensures forall i :: i in IndexesIn(All(items), p) ==> 0 <= i < |items|
    ensures forall q :: 0 <= q < p ==> All(items)[q].index in IndexesIn(All(items), p)
  {
    if p > 0 {
      IndexesAreItems(items, p - 1);
      var j := ChunkOfItem(items, |items|, p - 1);
    }
  }

  lemma EveryItemIsMet(items: seq<Pieced>, i: nat)
    requires i < |items| && NoneWithoutPieces(items)
    ensures i in IndexesIn(All(items), |All(items)|)
  {
    EndsBefore(items, i, |items|);
    IndexesAreItems(items, |All(items)|);
    IndexDecidesStretch(items, Offset(items, i), i);
    assert All(items)[Offset(items, i)].index == i;
  }

  lemma {:induction false} AscendingFromZero(order: seq<int>, n: nat)
    requires Ascending(order) && forall i :: i in order <==> 0 <= i < n
    ensures |order| == n && forall i :: 0 <= i < n ==> order[i] == i
  {
    var first := if order == [] then n else order[0];
    assert order == [] || first in order;
    if n > 0 {
      var last := |order| - 1;
      assert n - 1 in order;
      assert forall i :: 0 <= i < |order| ==> order[i] in order;
      assert order[last] == n - 1;
      var init := order[..last];
      forall i
        ensures i in init <==> 0 <= i < n - 1
      {
        if 0 <= i < n - 1 {
          assert i in order;
        }
      }
      AscendingFromZero(init, n - 1);
    }
  }

  /** Item i got the samples of its own chunks, joined in the order of its text. */
  ghost predicate OwnSamples(items: seq<Pieced>, results: seq<Samples>, i: nat, output: Samples)
    requires i < |items|
  {
    && Offset(items, i) < End(items, i) <= |results|
    && output == Concatenated(results[Offset(items, i)..End(items, i)])
  }

  lemma {:induction false} AskedIsItems(items: seq<Pieced>, p: nat, i: nat)
    requires i < |items| && p <= |All(items)| && NoneWithoutPieces(items) && i in IndexesIn(All(items), p)
    ensures DurationAsked(All(items), p, i) == items[i].duration
  {
    IndexDecidesStretch(items, p - 1, i);
    if All(items)[p - 1].index != i {
      AskedIsItems(items, p - 1, i);
    }
  }

  lemma OrderIsItems(items: seq<Pieced>, order: seq<int>)
    requires NoneWithoutPieces(items) && Ascending(order) && Lists(order, IndexesIn(All(items), |All(items)|))
    ensures |order| == |items| && forall i :: 0 <= i < |items| ==> order[i] == i
  {
    IndexesAreItems(items, |All(items)|);
    forall i | 0 <= i < |items|
      ensures i in IndexesIn(All(items), |All(items)|)
    {
      EveryItemIsMet(items, i);
    }
    AscendingFromZero(order, |items|);
  }

  /** Merging the results of the expanded items gives one waveform and duration per item, in the items' order. */
  lemma MergeUndoesExpand(items: seq<Pieced>, results: seq<Samples>, order: seq<int>,
                                             outputs: seq<Samples>, durations: seq<Option<real>>)
    requires NoneWithoutPieces(items) && |results| == |All(items)|
    requires IsMerge(All(items), results, order, outputs, durations)
    ensures |outputs| == |items| == |durations| && forall i :: 0 <= i < |items| ==> order[i] == i
    ensures forall i :: 0 <= i < |items| ==> OwnSamples(items, results, i, outputs[i])
    ensures forall i :: 0 <= i < |items| ==> durations[i] == items[i].duration
  {
    OrderIsItems(items, order);
    forall i | 0 <= i < |items|
      ensures OwnSamples(items, results, i, outputs[i]) && durations[i] == items[i].duration
    {
      EveryItemIsMet(items, i);
      AskedIsItems(items, |All(items)|, i);
      EndsBefore(items, i, |items|);
      CollectedIsStretch(items, results, |results|, i);
    }
  }

  /** One request: every chunk spoken, and one waveform and requested duration per item, in order. */
  method Speak(items: seq<Item>, voice: string -> Samples) returns (outputs: seq<Samples>, durations: seq<Option<real>>)
    ensures |outputs| == |items| == |durations|
    ensures forall i :: 0 <= i < |items| ==>
      outputs[i] == Spoken(ChunkTextSpec(items[i].source, 400), voice) && durations[i] == items[i].duration
  {
    var chunks := Expand(items);
    var results := seq(|chunks|, k requires 0 <= k < |chunks| => voice(chunks[k].source));
    var order;
    order, outputs, durations := Merge(chunks, results);
    ghost var parts := AllCut(items);
    EveryItemHasPieces(items);
    MergeUndoesExpand(parts, results, order, outputs, durations);
    forall i | 0 <= i < |items|
      ensures outputs[i] == Spoken(ChunkTextSpec(items[i].source, 400), voice) && durations[i] == items[i].duration
    {
      StretchIsSpoken(parts, voice, results, i);
      CutAt(items, i);
    }
  }

  /** The waveforms of the pieces, one after the other. */
  function Spoken(pieces: seq<string>, voice: string -> Samples): Samples {
    if pieces == [] then [] else Spoken(pieces[..|pieces| - 1], voice) + voice(pieces[|pieces| - 1])
  }

  lemma {:induction false} SpokenInTurn(first: string, rest: seq<string>, voice: string -> Samples)
    ensures Spoken([first] + rest, voice) == voice(first) + Spoken(rest, voice)
    ensures Spoken([], voice) == []
  {
    var pieces := [first] + rest;
    if rest == [] {
      assert pieces[..0] == [] && pieces == [first];
    } else {
      var init, last := rest[..|rest| - 1], rest[|rest| - 1];
      SpokenInTurn(first, init, voice);
      assert pieces[..|pieces| - 1] == [first] + init;
      Associates(voice(first), Spoken(init, voice), voice(last));
    }
  }

  lemma {:induction false} SpokenIsConcatenated(pieces: seq<string>, voice: string -> Samples, parts: seq<Samples>)
    requires |parts| == |pieces| && forall k :: 0 <= k < |pieces| ==> parts[k] == voice(pieces[k])
    ensures Concatenated(parts) == Spoken(pieces, voice)
  {
    if pieces != [] {
      SpokenIsConcatenated(pieces[..|pieces| - 1], voice, parts[..|parts| - 1]);
    }
  }

  /** The result for each chunk is the voice's for its text. */
  ghost predicate Voiced(chunks: seq<ChunkItem>, voice: string -> Samples, results: seq<Samples>) {
    |results| == |chunks| && forall p :: 0 <= p < |results| ==> results[p] == voice(chunks[p].source)
  }

  lemma {:induction false} StretchIsSpoken(items: seq<Pieced>, voice: string -> Samples, results: seq<Samples>, i: nat)
    requires i < |items| && NoneWithoutPieces(items) && Voiced(All(items), voice, results)
    ensures Offset(items, i) <= End(items, i) <= |results|
    ensures Concatenated(results[Offset(items, i)..End(items, i)]) == Spoken(items[i].pieces, voice)
  {
    EndsBefore(items, i, |items|);
    var lo := Offset(items, i);
    var own := results[lo..End(items, i)];
    forall k | 0 <= k < |own|
      ensures own[k] == voice(items[i].pieces[k])
    {
      IndexDecidesStretch(items, lo + k, i);
    }
    SpokenIsConcatenated(items[i].pieces, voice, own);
  }

  // ---------------------------------------------------------------------------------------
  // Duration
  // ---------------------------------------------------------------------------------------

  /** int() of a non-negative number of samples. */
  function Target(rate: int, duration: real): int { (duration * rate as real).Floor }

  /** _stretch_audio and _append_silence, as lengths. */
  function Stretched(rate: int, duration: real): int {
    if Target(rate, duration) > 1 then Target(rate, duration) else 1
  }

  function WithSilence(count: nat, rate: int, duration: real): int {
    if Target(rate, duration) <= count then count else Target(rate, duration)
  }

  /** postprocess_output: stretched when too long, padded when too short. */
  function Adjusted(count: nat, rate: int, duration: Option<real>): int
    requires rate > 0
  {
    if duration.None? then count
    else
      var actual := count as real / rate as real;
      if actual > duration.value then Stretched(rate, duration.value)
      else if actual < duration.value then WithSilence(count, rate, duration.value)
      else count
  }

  lemma CompareDurations(count: nat, rate: int, duration: real)
    requires rate > 0
    ensures count as real / rate as real > duration <==> count as real > duration * rate as real
    ensures count as real / rate as real < duration <==> count as real < duration * rate as real
  {
    var r := rate as real;
    var q := count as real / r;
    assert q * r == count as real;
    assert q > duration ==> (q - duration) * r > 0.0;
    assert q < duration ==> (duration - q) * r > 0.0;
    assert (q - duration) * r == q * r - duration * r;
  }

  /** The requested duration in samples, rounded down, and at least one. */
  function Requested(rate: int, duration: real): int {
    if duration * rate as real < 1.0 then 1 else (duration * rate as real).Floor
  }

  /**
   Whatever the length before, the result has the requested number of samples, at least one; except
   for an empty waveform asked for less than one sample, which stays empty.
   */
  lemma AdjustedExactly(count: nat, rate: int, duration: real)
    requires rate > 0 && duration > 0.0
    ensures Adjusted(count, rate, Some(duration)) == Requested(rate, duration)
            <==> count > 0 || duration * rate as real >= 1.0
    ensures count == 0 && duration * rate as real < 1.0 ==> Adjusted(count, rate, Some(duration)) == 0
    ensures Adjusted(count, rate, None) == count
  {
    CompareDurations(count, rate, duration);
    assert duration * rate as real > 0.0;
  }
}
