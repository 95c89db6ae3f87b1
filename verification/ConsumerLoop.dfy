/**
 The loop around the consumer (services/kafka-consumers/consumers/payperuse_consumer/main.py): it
 passes over messages that are not its own or not usable, breaks a chunk off at the deadline, and
 records the rest. When its commits are safe, over one chunk and over the consecutive chunks of an
 assignment, in both commit modes.
 */
module ConsumerLoop {
  import opened KafkaConsumer

  /** The messages a loop records when it passes over some of them. */
  function Kept(msgs: seq<Msg>, recorded: seq<bool>): seq<Msg>
    requires |msgs| == |recorded|
  {
    if msgs == [] then []
    else
      Kept(msgs[..|msgs| - 1], recorded[..|msgs| - 1]) + if recorded[|msgs| - 1] then [msgs[|msgs| - 1]] else []
  }

  /**
   The loop of payperuse_consumer: flush is set on the chunk's last message only, so passing over
   that one leaves the chunk unflushed.
   */
  function LoopCommitted(mode: CommitMode, c: Consumer, committed: map<TP, nat>, msgs: seq<Msg>,
                         recorded: seq<bool>, n: nat): map<TP, nat>
    requires n <= |msgs| == |recorded|
  {
    if n == 0 then committed
    else
      var before := LoopCommitted(mode, c, committed, msgs, recorded, n - 1);
      if recorded[n - 1] && (mode == PerMessage || n == |msgs|) then
        Commit(StoreAll(c, Kept(msgs[..n], recorded[..n])), before)
      else before
  }

  lemma {:induction false} LoopPerMessage(c: Consumer, committed: map<TP, nat>, msgs: seq<Msg>, recorded: seq<bool>,
                                          n: nat)
    requires n <= |msgs| == |recorded|
    ensures LoopCommitted(PerMessage, c, committed, msgs, recorded, n) ==
      if Kept(msgs[..n], recorded[..n]) == [] then committed
      else Commit(StoreAll(c, Kept(msgs[..n], recorded[..n])), committed)
  {
    if n > 0 {
      LoopPerMessage(c, committed, msgs, recorded, n - 1);
      assert msgs[..n][..n - 1] == msgs[..n - 1] && recorded[..n][..n - 1] == recorded[..n - 1];
      var kept := Kept(msgs[..n - 1], recorded[..n - 1]);
      assert kept + [] == kept && (kept + [msgs[n - 1]])[..|kept|] == kept;
      if recorded[n - 1] {
        CommitTwice(StoreAll(c, kept), msgs[n - 1], committed);
      }
    }
  }

  lemma {:induction false} LoopPerBatchWaits(c: Consumer, committed: map<TP, nat>, msgs: seq<Msg>, recorded: seq<bool>,
                                             n: nat)
    requires n < |msgs| == |recorded|
    ensures LoopCommitted(PerBatch, c, committed, msgs, recorded, n) == committed
  {
    if n > 0 {
      LoopPerBatchWaits(c, committed, msgs, recorded, n - 1);
    }
  }

  /** A stored message is behind the stored offset of its partition. */
  lemma {:induction false} StoringPasses(c: Consumer, msgs: seq<Msg>, i: nat)
    requires i < |msgs| && Owns(c, msgs[i])
    ensures msgs[i].tp in StoreAll(c, msgs).stored && StoreAll(c, msgs).stored[msgs[i].tp] > msgs[i].offset
  {
    StoreAllKeeps(c, msgs[..|msgs| - 1]);
    if i < |msgs| - 1 {
      StoringPasses(c, msgs[..|msgs| - 1], i);
    }
  }

  /** Where a kept message stands in the chunk. */
  lemma {:induction false} KeptAt(msgs: seq<Msg>, recorded: seq<bool>, k: nat) returns (i: nat)
    requires |msgs| == |recorded| && k < |Kept(msgs, recorded)|
    ensures i < |msgs| && recorded[i] && msgs[i] == Kept(msgs, recorded)[k]
  {
    var n := |msgs| - 1;
    if k < |Kept(msgs[..n], recorded[..n])| {
      i := KeptAt(msgs[..n], recorded[..n], k);
    } else {
      i := n;
    }
  }

  lemma {:induction false} RecordedIsKept(msgs: seq<Msg>, recorded: seq<bool>, i: nat) returns (k: nat)
    requires i < |msgs| == |recorded| && recorded[i]
    ensures k < |Kept(msgs, recorded)| && Kept(msgs, recorded)[k] == msgs[i]
  {
    var n := |msgs| - 1;
    if i < n {
      k := RecordedIsKept(msgs[..n], recorded[..n], i);
    } else {
      k := |Kept(msgs[..n], recorded[..n])|;
    }
  }

  lemma {:induction false} NothingKept(msgs: seq<Msg>, recorded: seq<bool>)
    requires |msgs| == |recorded|
    ensures Kept(msgs, recorded) == [] <==> forall i :: 0 <= i < |recorded| ==> !recorded[i]
  {
    if msgs != [] {
      NothingKept(msgs[..|msgs| - 1], recorded[..|msgs| - 1]);
    }
  }

  lemma CommitMoves(c: Consumer, committed: map<TP, nat>, kept: seq<Msg>)
    requires kept != [] && Owns(c, kept[0]) && Get(committed, kept[0].tp) <= kept[0].offset
    ensures Commit(StoreAll(c, kept), committed) != committed
  {
    StoringPasses(c, kept, 0);
    StoreAllKeeps(c, kept);
    assert Get(Commit(StoreAll(c, kept), committed), kept[0].tp) > Get(committed, kept[0].tp);
  }

  /**
   Passing over messages, fence drops included, the shipped loop ends a chunk with the same committed
   offsets in both modes exactly when it records the last message or none.
   */
  lemma LoopModesAgreeExactly(c: Consumer, committed: map<TP, nat>, msgs: seq<Msg>, recorded: seq<bool>)
    requires msgs != [] && |msgs| == |recorded|
    requires forall i :: 0 <= i < |msgs| && recorded[i] ==>
      Owns(c, msgs[i]) && Get(committed, msgs[i].tp) <= msgs[i].offset
    ensures LoopCommitted(PerBatch, c, committed, msgs, recorded, |msgs|)
         == LoopCommitted(PerMessage, c, committed, msgs, recorded, |msgs|)
      <==> recorded[|msgs| - 1] || forall i :: 0 <= i < |recorded| ==> !recorded[i]
  {
    var n := |msgs|;
    assert msgs[..n] == msgs && recorded[..n] == recorded;
    LoopPerMessage(c, committed, msgs, recorded, n);
    LoopPerBatchWaits(c, committed, msgs, recorded, n - 1);
    NothingKept(msgs, recorded);
    var kept := Kept(msgs, recorded);
    if kept != [] {
      var i := KeptAt(msgs, recorded, 0);
      CommitMoves(c, committed, kept);
    }
  }

  // ---------------------------------------------------------------------------------------
  // When a loop that passes over messages is safe
  // ---------------------------------------------------------------------------------------

  function RecordedSet(msgs: seq<Msg>, recorded: seq<bool>): set<Msg>
    requires |msgs| == |recorded|
  {
    set i | 0 <= i < |msgs| && recorded[i] :: msgs[i]
  }

  ghost predicate SafeOffsets(log: set<Msg>, processed: set<Msg>, offsets: map<TP, nat>) {
    forall tp :: tp in offsets ==> ProcessedBelow(log, processed, tp, offsets[tp])
  }

  /**
   Among the first n messages none is recorded after one of its own partition that was passed over,
   other than those the loop drops on purpose. A loop can keep track of this itself.
   */
  predicate StopsInTime(msgs: seq<Msg>, recorded: seq<bool>, dropped: set<Msg>, n: nat)
    requires n <= |msgs| == |recorded|
  {
    forall i, j :: 0 <= i < j < n && msgs[i].tp == msgs[j].tp && recorded[j] && msgs[i] !in dropped ==> recorded[i]
  }

  /**
   What a consumer was given and did: messages in order, nothing missing below any of them, unprocessed
   but for those dropped on purpose; recorded only while owned; safe offsets to begin with.
   */
  ghost predicate Served(c: Consumer, log: set<Msg>, processed: set<Msg>, committed: map<TP, nat>,
                         msgs: seq<Msg>, recorded: seq<bool>, dropped: set<Msg>)
  {
    && |msgs| == |recorded| && AscendingPerPartition(msgs)
    && (forall i :: 0 <= i < |msgs| ==> msgs[i] in log && (msgs[i] in processed <==> msgs[i] in dropped))
    && (forall i :: 0 <= i < |msgs| ==> Covered(log, processed, msgs, msgs[i].tp, msgs[i].offset))
    && (forall i :: 0 <= i < |msgs| && recorded[i] ==> Owns(c, msgs[i]))
    && SafeOffsets(log, processed, c.stored) && SafeOffsets(log, processed, committed)
  }

  /** Everything up to message j has been dealt with, if the loop stops in time. */
  lemma NothingMissedBelow(log: set<Msg>, processed: set<Msg>, msgs: seq<Msg>, recorded: seq<bool>, dropped: set<Msg>,
                           n: nat, j: nat)
    requires j < n <= |msgs| == |recorded| && AscendingPerPartition(msgs) && StopsInTime(msgs, recorded, dropped, n)
    requires forall i :: 0 <= i < |msgs| ==> (msgs[i] in processed <==> msgs[i] in dropped)
    requires Covered(log, processed, msgs, msgs[j].tp, msgs[j].offset) && recorded[j]
    ensures ProcessedBelow(log, processed + RecordedSet(msgs, recorded), msgs[j].tp, msgs[j].offset + 1)
  {
    var after := processed + RecordedSet(msgs, recorded);
    forall x | x in log && x.tp == msgs[j].tp && x.offset <= msgs[j].offset && x !in processed
      ensures x in after
    {
      if x.offset == msgs[j].offset {
        assert x == msgs[j];
      } else {
        var i :| 0 <= i < |msgs| && msgs[i] == x;
        assert i < j;
        assert recorded[i];
      }
    }
  }

  lemma StoreStaysSafe(c: Consumer, log: set<Msg>, processed: set<Msg>, m: Msg)
    requires SafeOffsets(log, processed, c.stored) && ProcessedBelow(log, processed, m.tp, m.offset + 1)
    ensures SafeOffsets(log, processed, Store(c, m).stored)
  {
  }

  lemma {:induction false} StoredIsSafe(c: Consumer, log: set<Msg>, processed: set<Msg>, committed: map<TP, nat>,
                                        msgs: seq<Msg>, recorded: seq<bool>, dropped: set<Msg>, n: nat, m: nat)
    requires Served(c, log, processed, committed, msgs, recorded, dropped)
    requires m <= n <= |msgs| && StopsInTime(msgs, recorded, dropped, n)
    ensures SafeOffsets(log, processed + RecordedSet(msgs, recorded),
                        StoreAll(c, Kept(msgs[..m], recorded[..m])).stored)
  {
    if m == 0 {
      assert msgs[..0] == [];
    } else {
      var last := m - 1;
      var before := Kept(msgs[..last], recorded[..last]);
      StoredIsSafe(c, log, processed, committed, msgs, recorded, dropped, n, last);
      KeptStep(msgs, recorded, last);
      if recorded[last] {
        NothingMissedBelow(log, processed, msgs, recorded, dropped, n, last);
        StoreStaysSafe(StoreAll(c, before), log, processed + RecordedSet(msgs, recorded), msgs[last]);
        StoreAllAppend(c, before, msgs[last]);
      }
    }
  }

  lemma KeptStep(msgs: seq<Msg>, recorded: seq<bool>, n: nat)
    requires n < |msgs| == |recorded|
    ensures Kept(msgs[..n + 1], recorded[..n + 1])
         == if recorded[n] then Kept(msgs[..n], recorded[..n]) + [msgs[n]] else Kept(msgs[..n], recorded[..n])
  {
    var a, r := msgs[..n + 1], recorded[..n + 1];
    assert a[..n] == msgs[..n] && r[..n] == recorded[..n];
    assert Kept(msgs[..n], recorded[..n]) + [] == Kept(msgs[..n], recorded[..n]);
  }

  lemma StoreAllAppend(c: Consumer, msgs: seq<Msg>, m: Msg)
    ensures StoreAll(c, msgs + [m]) == Store(StoreAll(c, msgs), m)
  {
    assert (msgs + [m])[..|msgs|] == msgs;
  }

  /** The offsets a commit after the first n messages leaves. */
  function CommittedAfter(c: Consumer, committed: map<TP, nat>, msgs: seq<Msg>, recorded: seq<bool>,
                          n: nat): map<TP, nat>
    requires n <= |msgs| == |recorded|
  {
    var kept := Kept(msgs[..n], recorded[..n]);
    if kept == [] then committed else Commit(StoreAll(c, kept), committed)
  }

  lemma PassedIsLost(c: Consumer, log: set<Msg>, processed: set<Msg>, committed: map<TP, nat>,
                     msgs: seq<Msg>, recorded: seq<bool>, dropped: set<Msg>, n: nat, i: nat, j: nat)
    requires Served(c, log, processed, committed, msgs, recorded, dropped) && n <= |msgs|
    requires i < j < n && msgs[i].tp == msgs[j].tp && recorded[j] && !recorded[i] && msgs[i] !in dropped
    ensures !SafeOffsets(log, processed + RecordedSet(msgs, recorded), CommittedAfter(c, committed, msgs, recorded, n))
  {
    var kept := Kept(msgs[..n], recorded[..n]);
    var k := RecordedIsKept(msgs[..n], recorded[..n], j);
    StoringPasses(c, kept, k);
    StoreAllKeeps(c, kept);
    var offsets := CommittedAfter(c, committed, msgs, recorded, n);
    assert msgs[i] !in RecordedSet(msgs, recorded);
    assert offsets[msgs[i].tp] > msgs[i].offset;
  }

  /** A commit after the first n messages is safe exactly when the loop stopped in time. */
  lemma CommitIsSafeExactly(c: Consumer, log: set<Msg>, processed: set<Msg>, committed: map<TP, nat>,
                            msgs: seq<Msg>, recorded: seq<bool>, dropped: set<Msg>, n: nat)
    requires Served(c, log, processed, committed, msgs, recorded, dropped) && n <= |msgs|
    ensures SafeOffsets(log, processed + RecordedSet(msgs, recorded), CommittedAfter(c, committed, msgs, recorded, n))
      <==> StopsInTime(msgs, recorded, dropped, n)
  {
    if StopsInTime(msgs, recorded, dropped, n) {
      StoredIsSafe(c, log, processed, committed, msgs, recorded, dropped, n, n);
    } else {
      var i, j :| 0 <= i < j < n && msgs[i].tp == msgs[j].tp && recorded[j] && msgs[i] !in dropped && !recorded[i];
      PassedIsLost(c, log, processed, committed, msgs, recorded, dropped, n, i, j);
    }
  }

  /** How many of the first n messages of a chunk a commit covers. */
  function CoveredBy(mode: CommitMode, recorded: seq<bool>, n: nat): nat
    requires n <= |recorded|
  {
    if mode == PerMessage || (n > 0 && n == |recorded| && recorded[n - 1]) then n else 0
  }

  /**
   The shipped loop, after the first n messages of a chunk: no committed offset passes an unprocessed
   message exactly when no message a commit covers was recorded after one of its own partition that
   was passed over. Committing after every message does not change the condition; it only makes every
   recorded message count.
   */
  lemma LoopIsSafeExactly(mode: CommitMode, c: Consumer, log: set<Msg>, processed: set<Msg>, committed: map<TP, nat>,
                          msgs: seq<Msg>, recorded: seq<bool>, dropped: set<Msg>, n: nat)
    requires Served(c, log, processed, committed, msgs, recorded, dropped) && n <= |msgs|
    ensures SafeOffsets(log, processed + RecordedSet(msgs, recorded),
                        LoopCommitted(mode, c, committed, msgs, recorded, n))
      <==> StopsInTime(msgs, recorded, dropped, CoveredBy(mode, recorded, n))
  {
    LoopCommits(mode, c, committed, msgs, recorded, n);
    CommitIsSafeExactly(c, log, processed, committed, msgs, recorded, dropped, CoveredBy(mode, recorded, n));
  }

  lemma LoopCommits(mode: CommitMode, c: Consumer, committed: map<TP, nat>, msgs: seq<Msg>, recorded: seq<bool>, n: nat)
    requires n <= |msgs| == |recorded|
    ensures LoopCommitted(mode, c, committed, msgs, recorded, n)
         == CommittedAfter(c, committed, msgs, recorded, CoveredBy(mode, recorded, n))
  {
    assert msgs[..0] == [];
    if mode == PerMessage {
      LoopPerMessage(c, committed, msgs, recorded, n);
    } else if n < |msgs| {
      LoopPerBatchWaits(c, committed, msgs, recorded, n);
    } else if n > 0 {
      LoopPerBatchWaits(c, committed, msgs, recorded, n - 1);
      KeptStep(msgs, recorded, n - 1);
    }
  }

  // ---------------------------------------------------------------------------------------
  // Consecutive chunks of one assignment
  // ---------------------------------------------------------------------------------------

  datatype RawChunk = Chunk(msgs: seq<Msg>, recorded: seq<bool>)

  /** One fetch and what the loop recorded of it; a chunk broken off records nothing from there on. */
  type Chunk = c: RawChunk | |c.msgs| == |c.recorded| witness Chunk([], [])

  function AllMsgs(chunks: seq<Chunk>): seq<Msg> {
    if chunks == [] then [] else AllMsgs(chunks[..|chunks| - 1]) + chunks[|chunks| - 1].msgs
  }

  function AllRecorded(chunks: seq<Chunk>): (r: seq<bool>)
    ensures |r| == |AllMsgs(chunks)|
  {
    if chunks == [] then [] else AllRecorded(chunks[..|chunks| - 1]) + chunks[|chunks| - 1].recorded
  }

  /** Client and broker after the loop went through the chunks. */
  function LoopRun(mode: CommitMode, c: Consumer, committed: map<TP, nat>,
                   chunks: seq<Chunk>): (Consumer, map<TP, nat>) {
    if chunks == [] then (c, committed)
    else
      var (c1, before) := LoopRun(mode, c, committed, chunks[..|chunks| - 1]);
      var last := chunks[|chunks| - 1];
      (StoreAll(c1, Kept(last.msgs, last.recorded)),
       LoopCommitted(mode, c1, before, last.msgs, last.recorded, |last.msgs|))
  }

  /** How many of all the messages a commit has covered: up to the end of the last chunk with one. */
  function CoveredByRun(mode: CommitMode, chunks: seq<Chunk>): (n: nat)
    ensures n <= |AllMsgs(chunks)|
  {
    if chunks == [] then 0
    else
      var last := chunks[|chunks| - 1];
      if CoveredBy(mode, last.recorded, |last.msgs|) > 0 then |AllMsgs(chunks)|
      else CoveredByRun(mode, chunks[..|chunks| - 1])
  }

  lemma {:induction false} PerMessageCoversAll(chunks: seq<Chunk>)
    ensures CoveredByRun(PerMessage, chunks) == |AllMsgs(chunks)|
  {
    if chunks != [] {
      PerMessageCoversAll(chunks[..|chunks| - 1]);
    }
  }

  lemma {:induction false} KeptConcat(a: seq<Msg>, r: seq<bool>, b: seq<Msg>, q: seq<bool>)
    requires |a| == |r| && |b| == |q|
    ensures Kept(a + b, r + q) == Kept(a, r) + Kept(b, q)
  {
    if b == [] {
      assert a + b == a && r + q == r;
    } else {
      var n := |b| - 1;
      KeptConcat(a, r, b[..n], q[..n]);
      assert (a + b)[..|a| + n] == a + b[..n] && (r + q)[..|r| + n] == r + q[..n];
    }
  }

  lemma {:induction false} StoreAllConcat(c: Consumer, a: seq<Msg>, b: seq<Msg>)
    ensures StoreAll(c, a + b) == StoreAll(StoreAll(c, a), b)
    ensures StoreAll(c, a).stored.Keys <= StoreAll(c, a + b).stored.Keys
  {
    if b == [] {
      assert a + b == a;
    } else {
      StoreAllConcat(c, a, b[..|b| - 1]);
      assert (a + b)[..|a + b| - 1] == a + b[..|b| - 1];
    }
  }

  /** A later commit hides an earlier one. */
  lemma CommitHides(c: Consumer, a: seq<Msg>, b: seq<Msg>, committed: map<TP, nat>)
    ensures Commit(StoreAll(c, a + b), Commit(StoreAll(c, a), committed)) == Commit(StoreAll(c, a + b), committed)
  {
    StoreAllConcat(c, a, b);
    StoreAllKeeps(c, a);
    StoreAllKeeps(c, a + b);
  }

  /** What was kept of a longer prefix begins with what was kept of a shorter one. */
  lemma KeptPrefix(msgs: seq<Msg>, recorded: seq<bool>, n: nat, m: nat)
    requires n <= m <= |msgs| == |recorded|
    ensures Kept(msgs[..m], recorded[..m]) == Kept(msgs[..n], recorded[..n]) + Kept(msgs[n..m], recorded[n..m])
  {
    KeptConcat(msgs[..n], recorded[..n], msgs[n..m], recorded[n..m]);
    assert msgs[..m] == msgs[..n] + msgs[n..m] && recorded[..m] == recorded[..n] + recorded[n..m];
  }

  lemma CommitAgain(c: Consumer, committed: map<TP, nat>, msgs: seq<Msg>, recorded: seq<bool>, n: nat, m: nat)
    requires n <= m <= |msgs| == |recorded| && Kept(msgs[..m], recorded[..m]) != []
    ensures Commit(StoreAll(c, Kept(msgs[..m], recorded[..m])), CommittedAfter(c, committed, msgs, recorded, n))
         == CommittedAfter(c, committed, msgs, recorded, m)
  {
    KeptPrefix(msgs, recorded, n, m);
    CommitHides(c, Kept(msgs[..n], recorded[..n]), Kept(msgs[n..m], recorded[n..m]), committed);
  }

  lemma CommittedAfterPrefix(c: Consumer, committed: map<TP, nat>, a: seq<Msg>, r: seq<bool>, b: seq<Msg>,
                             q: seq<bool>, n: nat)
    requires n <= |a| == |r| && |b| == |q|
    ensures CommittedAfter(c, committed, a + b, r + q, n) == CommittedAfter(c, committed, a, r, n)
  {
    assert (a + b)[..n] == a[..n] && (r + q)[..n] == r[..n];
  }

  /** The chunk's own offsets, as offsets of all messages so far; it keeps none of its messages. */
  lemma UnkeptChunk(mode: CommitMode, c: Consumer, committed: map<TP, nat>, earlier: seq<Chunk>, last: Chunk)
    requires Kept(last.msgs, last.recorded) == []
    ensures
      var msgs, recorded := AllMsgs(earlier) + last.msgs, AllRecorded(earlier) + last.recorded;
      var n := CoveredByRun(mode, earlier);
      CommittedAfter(c, committed, AllMsgs(earlier), AllRecorded(earlier), n)
        == CommittedAfter(c, committed, msgs, recorded,
                          if CoveredBy(mode, last.recorded, |last.msgs|) > 0 then |msgs| else n)
  {
    var a, r := AllMsgs(earlier), AllRecorded(earlier);
    var msgs, recorded := a + last.msgs, r + last.recorded;
    CommittedAfterPrefix(c, committed, a, r, last.msgs, last.recorded, CoveredByRun(mode, earlier));
    if CoveredBy(mode, last.recorded, |last.msgs|) > 0 {
      NothingKept(last.msgs, last.recorded);
      PerMessageCoversAll(earlier);
      KeptConcat(a, r, last.msgs, last.recorded);
      assert Kept(a, r) + [] == Kept(a, r) && a[..|a|] == a && r[..|a|] == r;
      assert msgs[..|msgs|] == msgs && recorded[..|msgs|] == recorded;
    }
  }

  lemma KeptChunk(c: Consumer, committed: map<TP, nat>, a: seq<Msg>, r: seq<bool>, last: Chunk, n: nat)
    requires n <= |a| == |r| && Kept(last.msgs, last.recorded) != []
    ensures Commit(StoreAll(c, Kept(a + last.msgs, r + last.recorded)), CommittedAfter(c, committed, a, r, n))
         == CommittedAfter(c, committed, a + last.msgs, r + last.recorded, |a + last.msgs|)
  {
    var msgs, recorded := a + last.msgs, r + last.recorded;
    KeptConcat(a, r, last.msgs, last.recorded);
    CommittedAfterPrefix(c, committed, a, r, last.msgs, last.recorded, n);
    assert msgs[..|msgs|] == msgs && recorded[..|msgs|] == recorded;
    CommitAgain(c, committed, msgs, recorded, n, |msgs|);
  }

  lemma CommittedAfterChunk(mode: CommitMode, c: Consumer, before: map<TP, nat>, last: Chunk)
    ensures LoopCommitted(mode, c, before, last.msgs, last.recorded, |last.msgs|) ==
      if CoveredBy(mode, last.recorded, |last.msgs|) == 0 || Kept(last.msgs, last.recorded) == [] then before
      else Commit(StoreAll(c, Kept(last.msgs, last.recorded)), before)
  {
    LoopCommits(mode, c, before, last.msgs, last.recorded, |last.msgs|);
    assert last.msgs[..|last.msgs|] == last.msgs && last.recorded[..|last.msgs|] == last.recorded
      && last.msgs[..0] == [];
  }

  lemma ChunkCommits(mode: CommitMode, c: Consumer, committed: map<TP, nat>, earlier: seq<Chunk>, last: Chunk,
                     c1: Consumer, before: map<TP, nat>)
    requires c1 == StoreAll(c, Kept(AllMsgs(earlier), AllRecorded(earlier)))
    requires before == CommittedAfter(c, committed, AllMsgs(earlier), AllRecorded(earlier), CoveredByRun(mode, earlier))
    ensures
      var msgs, recorded := AllMsgs(earlier) + last.msgs, AllRecorded(earlier) + last.recorded;
      && StoreAll(c1, Kept(last.msgs, last.recorded)) == StoreAll(c, Kept(msgs, recorded))
      && LoopCommitted(mode, c1, before, last.msgs, last.recorded, |last.msgs|)
         == CommittedAfter(c, committed, msgs, recorded,
              if CoveredBy(mode, last.recorded, |last.msgs|) > 0 then |msgs| else CoveredByRun(mode, earlier))
  {
    var a, r := AllMsgs(earlier), AllRecorded(earlier);
    KeptConcat(a, r, last.msgs, last.recorded);
    StoreAllConcat(c, Kept(a, r), Kept(last.msgs, last.recorded));
    CommittedAfterChunk(mode, c1, before, last);
    if Kept(last.msgs, last.recorded) == [] {
      UnkeptChunk(mode, c, committed, earlier, last);
    } else {
      KeptChunk(c, committed, a, r, last, CoveredByRun(mode, earlier));
      CommittedAfterPrefix(c, committed, a, r, last.msgs, last.recorded, CoveredByRun(mode, earlier));
    }
  }

  /** Going through the chunks is going through all their messages, committed as far as covered. */
  lemma {:induction false} RunCommits(mode: CommitMode, c: Consumer, committed: map<TP, nat>, chunks: seq<Chunk>)
    ensures LoopRun(mode, c, committed, chunks).0 == StoreAll(c, Kept(AllMsgs(chunks), AllRecorded(chunks)))
    ensures LoopRun(mode, c, committed, chunks).1
         == CommittedAfter(c, committed, AllMsgs(chunks), AllRecorded(chunks), CoveredByRun(mode, chunks))
  {
    if chunks != [] {
      var earlier, last := chunks[..|chunks| - 1], chunks[|chunks| - 1];
      RunCommits(mode, c, committed, earlier);
      ChunkCommits(mode, c, committed, earlier, last, LoopRun(mode, c, committed, earlier).0,
                   LoopRun(mode, c, committed, earlier).1);
    }
  }

  /**
   Over the consecutive chunks of an assignment the condition spans them: a message passed over in one
   chunk, by a fence drop, a failure or the deadline, is lost as soon as a commit covers a later message
   of its partition, in whatever chunk that one was recorded.
   */
  lemma LoopRunIsSafeExactly(mode: CommitMode, c: Consumer, log: set<Msg>, processed: set<Msg>, committed: map<TP, nat>,
                             chunks: seq<Chunk>, dropped: set<Msg>)
    requires Served(c, log, processed, committed, AllMsgs(chunks), AllRecorded(chunks), dropped)
    ensures
      var msgs, recorded := AllMsgs(chunks), AllRecorded(chunks);
      SafeOffsets(log, processed + RecordedSet(msgs, recorded), LoopRun(mode, c, committed, chunks).1)
      <==> StopsInTime(msgs, recorded, dropped, CoveredByRun(mode, chunks))
  {
    RunCommits(mode, c, committed, chunks);
    CommitIsSafeExactly(c, log, processed, committed, AllMsgs(chunks), AllRecorded(chunks), dropped,
                        CoveredByRun(mode, chunks));
  }

  function From(f: Consumer, position: map<TP, nat>): Consumer { f.(position := position, hand := []) }

  function PositionAt(f: Consumer, nexts: seq<map<TP, nat>>, k: nat): map<TP, nat>
    requires k <= |nexts|
  {
    if k == 0 then f.position else nexts[k - 1]
  }

  /** Each chunk is fetched from where the one before ended. */
  ghost predicate ConsecutiveFetches(f: Consumer, log: set<Msg>, chunks: seq<Chunk>, nexts: seq<map<TP, nat>>) {
    && |nexts| == |chunks|
    && forall k: nat :: k < |chunks| ==> ValidFetch(From(f, PositionAt(f, nexts, k)), log, chunks[k].msgs, nexts[k])
  }

  /** The messages are those of the held partitions between two positions, ascending. */
  ghost predicate Between(f: Consumer, log: set<Msg>, msgs: seq<Msg>, next: map<TP, nat>) {
    && AscendingPerPartition(msgs)
    && (forall i :: 0 <= i < |msgs| ==>
          msgs[i].tp in f.held && Get(f.position, msgs[i].tp) <= msgs[i].offset < Get(next, msgs[i].tp))
    && (forall m :: m in log && m.tp in f.held && Get(f.position, m.tp) <= m.offset < Get(next, m.tp) ==> m in msgs)
    && (forall tp :: tp in f.held ==> Get(f.position, tp) <= Get(next, tp))
  }

  lemma BetweenGrows(f: Consumer, log: set<Msg>, msgs: seq<Msg>, next: map<TP, nat>, chunk: seq<Msg>,
                     next': map<TP, nat>)
    requires Between(f, log, msgs, next) && ValidFetch(From(f, next), log, chunk, next')
    ensures Between(f, log, msgs + chunk, next')
  {
    var all := msgs + chunk;
    forall i | 0 <= i < |all|
      ensures all[i].tp in f.held && Get(f.position, all[i].tp) <= all[i].offset < Get(next', all[i].tp)
      ensures i < |msgs| ==> all[i].offset < Get(next, all[i].tp)
      ensures i >= |msgs| ==> Get(next, all[i].tp) <= all[i].offset
    {
      assert i >= |msgs| ==> all[i] == chunk[i - |msgs|];
    }
  }

  lemma OneMoreFetch(f: Consumer, log: set<Msg>, chunks: seq<Chunk>, nexts: seq<map<TP, nat>>, n: nat)
    requires |nexts| == |chunks| && n < |chunks|
    requires Between(f, log, AllMsgs(chunks[..n]), PositionAt(f, nexts, n))
    requires ValidFetch(From(f, PositionAt(f, nexts, n)), log, chunks[n].msgs, nexts[n])
    ensures Between(f, log, AllMsgs(chunks[..n + 1]), nexts[n])
  {
    BetweenGrows(f, log, AllMsgs(chunks[..n]), PositionAt(f, nexts, n), chunks[n].msgs, nexts[n]);
    assert chunks[..n + 1][..n] == chunks[..n];
  }

  lemma {:induction false} FetchesAreBetween(
      f: Consumer, log: set<Msg>, chunks: seq<Chunk>, nexts: seq<map<TP, nat>>, n: nat)
    requires ConsecutiveFetches(f, log, chunks, nexts) && n <= |chunks|
    ensures Between(f, log, AllMsgs(chunks[..n]), PositionAt(f, nexts, n))
  {
    if n > 0 {
      FetchesAreBetween(f, log, chunks, nexts, n - 1);
      OneMoreFetch(f, log, chunks, nexts, n - 1);
    }
  }

  /**
   Consecutive fetches give the loop what the results above ask for: the messages of all chunks in
   order, with nothing missing below any of them, if all before the first position was processed.
   */
  lemma FetchesLeaveNoGap(f: Consumer, log: set<Msg>, processed: set<Msg>, chunks: seq<Chunk>,
                          nexts: seq<map<TP, nat>>, i: nat)
    requires ConsecutiveFetches(f, log, chunks, nexts) && i < |AllMsgs(chunks)|
    requires forall tp :: tp in f.held ==> ProcessedBelow(log, processed, tp, Get(f.position, tp))
    ensures AscendingPerPartition(AllMsgs(chunks))
    ensures Covered(log, processed, AllMsgs(chunks), AllMsgs(chunks)[i].tp, AllMsgs(chunks)[i].offset)
  {
    FetchesAreBetween(f, log, chunks, nexts, |chunks|);
    assert chunks[..|chunks|] == chunks;
  }

  /**
   "Abandoning is free: the next fetch returns it." It does not: the next fetch goes on behind the
   chunk, so once the loop commits after every message, recording anything later of an abandoned
   message's partition loses that message.
   */
  lemma AbandoningIsNotFree(c: Consumer, log: set<Msg>, processed: set<Msg>, committed: map<TP, nat>,
                            chunks: seq<Chunk>, i: nat, j: nat)
    requires Served(c, log, processed, committed, AllMsgs(chunks), AllRecorded(chunks), {})
    requires i < j < |AllMsgs(chunks)| && AllMsgs(chunks)[i].tp == AllMsgs(chunks)[j].tp
    requires !AllRecorded(chunks)[i] && AllRecorded(chunks)[j]
    ensures !SafeOffsets(log, processed + RecordedSet(AllMsgs(chunks), AllRecorded(chunks)),
                         LoopRun(PerMessage, c, committed, chunks).1)
  {
    LoopRunIsSafeExactly(PerMessage, c, log, processed, committed, chunks, {});
    PerMessageCoversAll(chunks);
  }

  // ---------------------------------------------------------------------------------------
  // The shipped loop
  // ---------------------------------------------------------------------------------------

  /** Where the loop breaks the chunk off: the first message it would handle after the deadline. */
  function BreakAt(held: set<TP>, usable: Msg -> bool, late: seq<bool>, msgs: seq<Msg>, from: nat): (n: nat)
    requires from <= |msgs| == |late|
    ensures from <= n <= |msgs|
    decreases |msgs| - from
  {
    if from == |msgs| || (msgs[from].tp in held && usable(msgs[from]) && late[from]) then from
    else BreakAt(held, usable, late, msgs, from + 1)
  }

  predicate Takes(held: set<TP>, usable: Msg -> bool, m: Msg) { m.tp in held && usable(m) }

  /** The deadline has not passed when the loop comes to message k, nor to any it took up before. */
  predicate InTime(held: set<TP>, usable: Msg -> bool, msgs: seq<Msg>, late: seq<bool>, k: nat)
    requires k < |msgs| == |late|
  {
    forall j :: 0 <= j <= k && msgs[j].tp in held && usable(msgs[j]) ==> !late[j]
  }

  /** The loop breaks off before the first message it would take up late, and nowhere else. */
  lemma {:induction false} BreaksExactly(held: set<TP>, usable: Msg -> bool, late: seq<bool>, msgs: seq<Msg>, from: nat)
    requires from <= |msgs| == |late|
    ensures
      var n := BreakAt(held, usable, late, msgs, from);
      && (forall j :: from <= j < n && msgs[j].tp in held && usable(msgs[j]) ==> !late[j])
      && (n < |msgs| ==> msgs[n].tp in held && usable(msgs[n]) && late[n])
    decreases |msgs| - from
  {
    if from < |msgs| && !(msgs[from].tp in held && usable(msgs[from]) && late[from]) {
      BreaksExactly(held, usable, late, msgs, from + 1);
    }
  }

  lemma RecordedInTime(held: set<TP>, usable: Msg -> bool, late: seq<bool>, msgs: seq<Msg>, recorded: seq<bool>)
    requires |late| == |msgs| == |recorded|
    requires RecordedUpTo(held, usable, msgs, recorded, BreakAt(held, usable, late, msgs, 0))
    ensures forall k :: 0 <= k < |msgs| ==>
      (recorded[k] <==> msgs[k].tp in held && usable(msgs[k]) && InTime(held, usable, msgs, late, k))
  {
    BreaksExactly(held, usable, late, msgs, 0);
  }

  /** The messages before the break that are owned and usable. */
  predicate RecordedUpTo(held: set<TP>, usable: Msg -> bool, msgs: seq<Msg>, recorded: seq<bool>, n: nat)
    requires |recorded| == |msgs|
  {
    forall k :: 0 <= k < |msgs| ==> (recorded[k] <==> k < n && Takes(held, usable, msgs[k]))
  }

  lemma {:induction false} LoopPrefix(mode: CommitMode, c: Consumer, committed: map<TP, nat>, msgs: seq<Msg>,
                                      recorded: seq<bool>, other: seq<bool>, n: nat)
    requires n <= |msgs| == |recorded| == |other| && recorded[..n] == other[..n]
    ensures LoopCommitted(mode, c, committed, msgs, recorded, n) == LoopCommitted(mode, c, committed, msgs, other, n)
  {
    if n > 0 {
      assert recorded[n - 1] == recorded[..n][n - 1] == other[..n][n - 1] == other[n - 1];
      assert recorded[..n - 1] == recorded[..n][..n - 1] == other[..n][..n - 1] == other[..n - 1];
      LoopPrefix(mode, c, committed, msgs, recorded, other, n - 1);
    }
  }

  lemma {:induction false} UnrecordedTail(mode: CommitMode, c: Consumer, committed: map<TP, nat>, msgs: seq<Msg>,
                                          recorded: seq<bool>, n: nat, m: nat)
    requires n <= m <= |msgs| == |recorded| && forall k :: n <= k < m ==> !recorded[k]
    ensures LoopCommitted(mode, c, committed, msgs, recorded, m) == LoopCommitted(mode, c, committed, msgs, recorded, n)
    ensures Kept(msgs[..m], recorded[..m]) == Kept(msgs[..n], recorded[..n])
  {
    if n < m {
      UnrecordedTail(mode, c, committed, msgs, recorded, n, m - 1);
      KeptStep(msgs, recorded, m - 1);
    }
  }

  /** After the first n messages: what is stored, committed and recorded. */
  ghost predicate After(mode: CommitMode, c: Consumer, committed: map<TP, nat>, msgs: seq<Msg>, recorded: seq<bool>,
                        n: nat, c': Consumer, committed': map<TP, nat>)
    requires n <= |msgs| == |recorded|
  {
    && c' == StoreAll(c, Kept(msgs[..n], recorded[..n]))
    && committed' == LoopCommitted(mode, c, committed, msgs, recorded, n)
  }

  lemma AfterSkip(mode: CommitMode, c: Consumer, committed: map<TP, nat>, msgs: seq<Msg>, recorded: seq<bool>, n: nat,
                  m: nat, c': Consumer, committed': map<TP, nat>)
    requires n <= m <= |msgs| == |recorded| && After(mode, c, committed, msgs, recorded, n, c', committed')
    requires forall k :: n <= k < m ==> !recorded[k]
    ensures After(mode, c, committed, msgs, recorded, m, c', committed')
  {
    UnrecordedTail(mode, c, committed, msgs, recorded, n, m);
  }

  lemma AfterRecord(mode: CommitMode, c: Consumer, committed: map<TP, nat>, msgs: seq<Msg>, recorded: seq<bool>, n: nat,
                    c1: Consumer, before: map<TP, nat>, committed': map<TP, nat>)
    requires n < |msgs| == |recorded| && After(mode, c, committed, msgs, recorded, n, c1, before)
    requires committed' == if mode == PerMessage || n == |msgs| - 1 then Commit(Store(c1, msgs[n]), before) else before
    ensures After(mode, c, committed, msgs, recorded[n := true], n + 1, Store(c1, msgs[n]), committed')
  {
    var r := recorded[n := true];
    assert r[..n] == recorded[..n];
    LoopPrefix(mode, c, committed, msgs, recorded, r, n);
    KeptStep(msgs, r, n);
    StoreAllAppend(c, Kept(msgs[..n], r[..n]), msgs[n]);
  }

  const MAX_ATTEMPTS := 3

  /** _handle_with_retry: succeeds says which attempts would; the last failure gives the message up. */
  method HandleWithRetry(succeeds: seq<bool>) returns (done: bool, attempts: nat)
    requires |succeeds| == MAX_ATTEMPTS
    ensures done <==> true in succeeds
    ensures 1 <= attempts <= 3 == |succeeds| && true !in succeeds[..attempts - 1]
    ensures if done then succeeds[attempts - 1] else attempts == 3
  {
    attempts := 1;
    while !succeeds[attempts - 1]
      invariant 1 <= attempts <= MAX_ATTEMPTS && true !in succeeds[..attempts - 1]
      decreases MAX_ATTEMPTS - attempts
    {
      if attempts == MAX_ATTEMPTS {
        return false, attempts;
      }
      attempts := attempts + 1;
    }
    done := true;
  }

  /** The messages billed: those recorded whose handler did not give up. */
  predicate BilledAre(billed: seq<bool>, recorded: seq<bool>, succeeds: seq<seq<bool>>)
    requires |billed| == |recorded| == |succeeds|
  {
    forall k :: 0 <= k < |billed| ==> (billed[k] <==> recorded[k] && true in succeeds[k])
  }

  /** One chunk through the loop of payperuse_consumer; what its handler gave up is recorded but not billed. */
  method ServeChunk(
      consumer: ManagedConsumer, msgs: seq<Msg>, usable: Msg -> bool, late: seq<bool>, succeeds: seq<seq<bool>>)
    returns (recorded: seq<bool>, billed: seq<bool>)
    requires |late| == |msgs| == |succeeds| && forall k :: 0 <= k < |msgs| ==> |succeeds[k]| == MAX_ATTEMPTS
    modifies consumer, consumer.broker
    ensures |recorded| == |billed| == |msgs| && BilledAre(billed, recorded, succeeds)
    ensures forall k :: 0 <= k < |msgs| ==>
      (recorded[k] <==>
        && msgs[k].tp in old(consumer.held) && usable(msgs[k])
        && InTime(old(consumer.held), usable, msgs, late, k))
    ensures consumer.View() == StoreAll(old(consumer.View()), Kept(msgs, recorded))
    ensures consumer.broker.committed
         == LoopCommitted(consumer.mode, old(consumer.View()), old(consumer.broker.committed), msgs, recorded, |msgs|)
  {
    ghost var c, committed, held := consumer.View(), consumer.broker.committed, consumer.held;
    recorded, billed := seq(|msgs|, _ => false), seq(|msgs|, _ => false);
    var i := 0;
    assert msgs[..0] == [] && recorded[..0] == [];
    while i < |msgs|
      invariant 0 <= i <= |msgs| == |recorded| == |billed| && consumer.held == held
      invariant BilledAre(billed, recorded, succeeds)
      invariant BreakAt(held, usable, late, msgs, 0) == BreakAt(held, usable, late, msgs, i)
      invariant RecordedUpTo(held, usable, msgs, recorded, i)
      invariant After(consumer.mode, c, committed, msgs, recorded, i, consumer.View(), consumer.broker.committed)
    {
      var m := msgs[i];
      ghost var c1, before := consumer.View(), consumer.broker.committed;
      if m.tp in consumer.held && usable(m) {
        if late[i] {
          break;
        }
        var done, _ := HandleWithRetry(succeeds[i]);
        consumer.RecordProcessed(m, i == |msgs| - 1);
        AfterRecord(consumer.mode, c, committed, msgs, recorded, i, c1, before, consumer.broker.committed);
        recorded, billed := recorded[i := true], billed[i := done];
      } else {
        AfterSkip(consumer.mode, c, committed, msgs, recorded, i, i + 1, c1, before);
      }
      i := i + 1;
    }
    AfterSkip(consumer.mode, c, committed, msgs, recorded, i, |msgs|, consumer.View(), consumer.broker.committed);
    RecordedInTime(held, usable, late, msgs, recorded);
    assert msgs[..|msgs|] == msgs && recorded[..|msgs|] == recorded;
  }

  /**
   Within one chunk the shipped loop always stops in time: a partition it does not own is passed over
   to the end, and behind the deadline nothing is recorded. Only a later chunk can pass what it left.
   */
  lemma OneChunkStopsInTime(held: set<TP>, usable: Msg -> bool, msgs: seq<Msg>, recorded: seq<bool>, n: nat,
                            dropped: set<Msg>)
    requires |recorded| == |msgs| && RecordedUpTo(held, usable, msgs, recorded, n)
    requires forall i :: 0 <= i < |msgs| && !usable(msgs[i]) ==> msgs[i] in dropped
    ensures StopsInTime(msgs, recorded, dropped, |msgs|)
  {
  }
}
