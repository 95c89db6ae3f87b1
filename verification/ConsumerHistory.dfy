/**
 Everything that can happen to one process of a consumer group (services/kafka-consumers/bootstrap/consumers.py
 with consumers/payperuse_consumer/main.py): its partitions come and go between chunks and within them,
 messages are handled, given up after the last attempt, or passed over, the stored offsets are
 committed at any time, and other processes work on the partitions it does not hold. Exactly which of
 these histories lose a message.
 */
module ConsumerHistory {
  import opened ConsumerLoop
  import opened KafkaConsumer

  /**
   The consumer, the broker's offsets, the messages dealt with, and what a watcher of the loop notes: the
   partitions whose stored offset covers a message left out (tainted), and whether one of those was
   ever committed (lost). The consumer's gap holds the partitions with a message passed over since they
   were last assigned.
   */
  datatype World = World(c: Consumer, committed: map<TP, nat>, processed: set<Msg>, tainted: set<TP>, lost: bool)

  datatype Event =
    | Gained(tps: set<TP>)
    | Dropped(tps: set<TP>)
    | Fetched(chunk: seq<Msg>, next: map<TP, nat>)
    /** The handler of the next message ends, done or having given up, and the message is recorded. */
    | Handled(done: bool, commit: bool)
    /** The fence, a failure, or the deadline. */
    | PassedOver
    | CommittedStored
    /** Other processes deal with messages of partitions not held here and commit them. */
    | Elsewhere(msgs: set<Msg>, offsets: map<TP, nat>)

  /** Another process resumes at the committed offset and leaves nothing out up to the one it commits. */
  ghost predicate LeavesNothingOut(w: World, log: set<Msg>, msgs: set<Msg>, offsets: map<TP, nat>) {
    && (forall m :: m in msgs ==> m.tp !in w.c.held && Get(w.committed, m.tp) <= m.offset)
    && (forall tp :: tp in offsets ==> tp !in w.c.held && Get(w.committed, tp) <= offsets[tp])
    && (forall m :: m in log && m.tp in offsets && Get(w.committed, m.tp) <= m.offset < offsets[m.tp] ==>
          m in w.processed || m in msgs)
  }

  /** Callbacks run while the client fetches, so a partition is not regained with its old messages in hand. */
  ghost predicate Can(w: World, log: set<Msg>, e: Event) {
    match e
    case Gained(tps) => forall i :: 0 <= i < |w.c.hand| ==> w.c.hand[i].tp !in tps
    case Dropped(_) => true
    case Fetched(chunk, next) =>
      ValidFetch(w.c, log, chunk, next) && forall i :: 0 <= i < |chunk| ==> chunk[i] in log
    case Handled(_, _) => w.c.hand != [] && Owns(w.c, w.c.hand[0])
    case PassedOver => w.c.hand != []
    case CommittedStored => true
    case Elsewhere(msgs, offsets) => LeavesNothingOut(w, log, msgs, offsets)
  }

  function Commits(w: World): World {
    w.(committed := Commit(w.c, w.committed), lost := w.lost || w.tainted != {})
  }

  function Dealt(w: World, done: bool): set<Msg>
    requires w.c.hand != []
  {
    if done then w.processed + {w.c.hand[0]} else w.processed
  }

  /** Recorded behind a message that was passed over, or not dealt with itself. */
  predicate Taints(w: World, done: bool)
    requires w.c.hand != []
  {
    var m := w.c.hand[0];
    m.tp in w.c.gap || m !in Dealt(w, done)
  }

  function Records(w: World, done: bool): World
    requires w.c.hand != []
  {
    w.(c := Recorded(w.c), processed := Dealt(w, done),
       tainted := if Taints(w, done) then w.tainted + {w.c.hand[0].tp} else w.tainted)
  }

  /** A message that was dealt with before is no loss. */
  function PassesOver(w: World): World
    requires w.c.hand != []
  {
    w.(c := if w.c.hand[0] in w.processed then w.c.(hand := w.c.hand[1..]) else Skipped(w.c))
  }

  function Step(w: World, log: set<Msg>, e: Event): World
    requires Can(w, log, e)
  {
    match e
    case Gained(tps) => w.(c := Gain(w.c, tps, w.committed), tainted := w.tainted - tps)
    case Dropped(tps) => w.(c := Drop(w.c, tps), tainted := w.tainted - tps)
    case Fetched(chunk, next) => w.(c := w.c.(hand := chunk, position := next, ended := w.c.gap))
    case Handled(done, commit) => if commit then Commits(Records(w, done)) else Records(w, done)
    case PassedOver => PassesOver(w)
    case CommittedStored => Commits(w)
    case Elsewhere(msgs, offsets) => w.(processed := w.processed + msgs, committed := w.committed + offsets)
  }

  ghost predicate Possible(w: World, log: set<Msg>, events: seq<Event>)
    decreases |events|
  {
    events == [] || (Can(w, log, events[0]) && Possible(Step(w, log, events[0]), log, events[1..]))
  }

  ghost function Run(w: World, log: set<Msg>, events: seq<Event>): World
    requires Possible(w, log, events)
    decreases |events|
  {
    if events == [] then w else Run(Step(w, log, events[0]), log, events[1..])
  }

  // ---------------------------------------------------------------------------------------
  // Where the offsets stand
  // ---------------------------------------------------------------------------------------

  /** A message in hand, while held, lies past the committed and stored offsets and before the position. */
  ghost predicate InPlace(w: World, m: Msg) {
    m.tp in w.c.held ==>
      && Get(w.committed, m.tp) <= m.offset
      && Get(w.c.stored, m.tp) <= m.offset < Get(w.c.position, m.tp)
  }

  ghost predicate HandInPlace(w: World, log: set<Msg>) {
    && AscendingPerPartition(w.c.hand)
    && forall i :: 0 <= i < |w.c.hand| ==> w.c.hand[i] in log && InPlace(w, w.c.hand[i])
  }

  ghost predicate OffsetsOrdered(w: World) {
    && w.c.stored.Keys <= w.c.held && w.tainted <= w.c.stored.Keys
    && (forall tp :: tp in w.c.held ==> Get(w.committed, tp) <= Get(w.c.position, tp))
    && (forall tp :: tp in w.c.stored ==> Get(w.committed, tp) <= w.c.stored[tp] <= Get(w.c.position, tp))
  }

  ghost predicate InOrder(w: World, log: set<Msg>) { HandInPlace(w, log) && OffsetsOrdered(w) }

  lemma StoreInOrder(w: World, log: set<Msg>, done: bool)
    requires InOrder(w, log) && Can(w, log, Handled(done, false))
    ensures InOrder(Records(w, done), log)
  {
    var w', m := Records(w, done), w.c.hand[0];
    forall i | 0 <= i < |w'.c.hand|
      ensures w'.c.hand[i] in log && InPlace(w', w'.c.hand[i])
    {
      assert w'.c.hand[i] == w.c.hand[i + 1] && InPlace(w, w.c.hand[i + 1]);
      assert m.tp == w.c.hand[i + 1].tp ==> m.offset < w.c.hand[i + 1].offset;
    }
    assert AscendingPerPartition(w'.c.hand);
    assert InPlace(w, m);
  }

  lemma CommitInOrder(w: World, log: set<Msg>)
    requires InOrder(w, log)
    ensures InOrder(Commits(w), log)
  {
    var w' := Commits(w);
    forall i | 0 <= i < |w.c.hand|
      ensures InPlace(w', w.c.hand[i])
    {
      assert InPlace(w, w.c.hand[i]);
    }
  }

  lemma PassInOrder(w: World, log: set<Msg>)
    requires InOrder(w, log) && w.c.hand != []
    ensures InOrder(PassesOver(w), log)
  {
    var w' := PassesOver(w);
    forall i | 0 <= i < |w'.c.hand|
      ensures w'.c.hand[i] in log && InPlace(w', w'.c.hand[i])
    {
      assert w'.c.hand[i] == w.c.hand[i + 1] && InPlace(w, w.c.hand[i + 1]);
    }
  }

  lemma GainInOrder(w: World, log: set<Msg>, tps: set<TP>)
    requires InOrder(w, log) && Can(w, log, Gained(tps))
    ensures InOrder(Step(w, log, Gained(tps)), log)
  {
    forall i | 0 <= i < |w.c.hand|
      ensures InPlace(Step(w, log, Gained(tps)), w.c.hand[i])
    {
      assert InPlace(w, w.c.hand[i]);
    }
  }

  lemma DropInOrder(w: World, log: set<Msg>, tps: set<TP>)
    requires InOrder(w, log)
    ensures InOrder(Step(w, log, Dropped(tps)), log)
  {
    forall i | 0 <= i < |w.c.hand|
      ensures InPlace(Step(w, log, Dropped(tps)), w.c.hand[i])
    {
      assert InPlace(w, w.c.hand[i]);
    }
  }

  lemma FetchInOrder(w: World, log: set<Msg>, chunk: seq<Msg>, next: map<TP, nat>)
    requires InOrder(w, log) && Can(w, log, Fetched(chunk, next))
    ensures InOrder(Step(w, log, Fetched(chunk, next)), log)
  {
    var w' := Step(w, log, Fetched(chunk, next));
    forall i | 0 <= i < |chunk|
      ensures InPlace(w', chunk[i])
    {
      assert Get(w.committed, chunk[i].tp) <= Get(w.c.position, chunk[i].tp);
      assert chunk[i].tp in w.c.stored ==> w.c.stored[chunk[i].tp] <= Get(w.c.position, chunk[i].tp);
    }
    assert HandInPlace(w', log);
    forall tp | tp in w.c.held
      ensures Get(w.c.position, tp) <= Get(next, tp)
    {
    }
    assert OffsetsOrdered(w');
  }

  lemma ElsewhereInOrder(w: World, log: set<Msg>, msgs: set<Msg>, offsets: map<TP, nat>)
    requires InOrder(w, log) && Can(w, log, Elsewhere(msgs, offsets))
    ensures InOrder(Step(w, log, Elsewhere(msgs, offsets)), log)
  {
    forall i | 0 <= i < |w.c.hand|
      ensures InPlace(Step(w, log, Elsewhere(msgs, offsets)), w.c.hand[i])
    {
      assert InPlace(w, w.c.hand[i]);
    }
  }

  lemma StepInOrder(w: World, log: set<Msg>, e: Event)
    requires InOrder(w, log) && Can(w, log, e)
    ensures InOrder(Step(w, log, e), log)
  {
    match e {
      case Gained(tps) => GainInOrder(w, log, tps);
      case Dropped(tps) => DropInOrder(w, log, tps);
      case Fetched(chunk, next) => FetchInOrder(w, log, chunk, next);
      case Handled(done, commit) =>
        StoreInOrder(w, log, done);
        CommitInOrder(Records(w, done), log);
      case PassedOver => PassInOrder(w, log);
      case CommittedStored => CommitInOrder(w, log);
      case Elsewhere(msgs, offsets) => ElsewhereInOrder(w, log, msgs, offsets);
    }
  }

  // ---------------------------------------------------------------------------------------
  // What the watcher knows
  // ---------------------------------------------------------------------------------------

  /** The committed offsets are safe exactly while the watcher has noted no loss. */
  ghost predicate KnowsCommitted(w: World, log: set<Msg>) {
    !w.lost <==> SafeOffsets(log, w.processed, w.committed)
  }

  /** A tainted partition's stored offset covers a message left out; before any loss no other does. */
  ghost predicate KnowsStored(w: World, log: set<Msg>) {
    forall tp :: tp in w.c.stored ==>
      && (tp in w.tainted ==> !ProcessedBelow(log, w.processed, tp, w.c.stored[tp]))
      && (!w.lost && tp !in w.tainted ==> ProcessedBelow(log, w.processed, tp, w.c.stored[tp]))
  }

  /** What lies before an offset of a held partition: in a gap, something left out; else nothing, before any loss. */
  ghost predicate KnowsBelow(w: World, log: set<Msg>, tp: TP, offset: nat) {
    && (tp in w.c.gap ==> !Covered(log, w.processed, w.c.hand, tp, offset))
    && (!w.lost && tp !in w.c.gap && tp !in w.tainted ==> Covered(log, w.processed, w.c.hand, tp, offset))
  }

  ghost predicate KnowsPositions(w: World, log: set<Msg>) {
    forall tp :: tp in w.c.held ==> KnowsBelow(w, log, tp, Get(w.c.position, tp))
  }

  ghost predicate KnowsHand(w: World, log: set<Msg>) {
    forall i :: 0 <= i < |w.c.hand| && w.c.hand[i].tp in w.c.held ==>
      KnowsBelow(w, log, w.c.hand[i].tp, w.c.hand[i].offset)
  }

  ghost predicate Knows(w: World, log: set<Msg>) {
    KnowsCommitted(w, log) && KnowsStored(w, log) && KnowsPositions(w, log) && KnowsHand(w, log)
  }

  /** Dealing with a message at or past the offset changes nothing below it. */
  lemma BelowIsElsewhere(log: set<Msg>, processed: set<Msg>, after: set<Msg>, m: Msg, tp: TP, offset: nat)
    requires processed <= after <= processed + {m} && (m.tp == tp ==> offset <= m.offset)
    ensures ProcessedBelow(log, after, tp, offset) <==> ProcessedBelow(log, processed, tp, offset)
  {
    if ProcessedBelow(log, after, tp, offset) {
      forall x | x in log && x.tp == tp && x.offset < offset
        ensures x in processed
      {
        assert x in after && x != m;
      }
    }
  }

  /** Moving the next message from the hand to those dealt with, or past the hand for another partition. */
  lemma CoveredElsewhere(log: set<Msg>, processed: set<Msg>, after: set<Msg>, hand: seq<Msg>, tp: TP, offset: nat)
    requires hand != [] && processed <= after <= processed + {hand[0]}
    ensures !Covered(log, processed, hand, tp, offset) ==> !Covered(log, after, hand[1..], tp, offset)
    ensures hand[0].tp != tp || hand[0] in after ==>
      (Covered(log, processed, hand, tp, offset) <==> Covered(log, after, hand[1..], tp, offset))
  {
    assert hand == [hand[0]] + hand[1..];
  }

  /** A message passed over is missing below whatever follows it. */
  lemma NowMissing(log: set<Msg>, processed: set<Msg>, hand: seq<Msg>, offset: nat)
    requires hand != [] && AscendingPerPartition(hand) && hand[0] in log && hand[0] !in processed
    requires hand[0].offset < offset
    ensures !Covered(log, processed, hand[1..], hand[0].tp, offset)
  {
    assert forall i :: 0 <= i < |hand[1..]| ==> hand[1..][i] == hand[i + 1];
    assert hand[0] !in hand[1..];
  }

  lemma RecordsBelow(w: World, log: set<Msg>, done: bool, tp: TP, offset: nat)
    requires Can(w, log, Handled(done, false)) && tp in w.c.held && KnowsBelow(w, log, tp, offset)
    ensures KnowsBelow(Records(w, done), log, tp, offset)
  {
    CoveredElsewhere(log, w.processed, Dealt(w, done), w.c.hand, tp, offset);
  }

  lemma RecordsStored(w: World, log: set<Msg>, done: bool)
    requires InOrder(w, log) && Knows(w, log) && Can(w, log, Handled(done, false))
    ensures
      var m, after, tainted := w.c.hand[0], Dealt(w, done), Records(w, done).tainted;
      && (m.tp in tainted ==> !ProcessedBelow(log, after, m.tp, m.offset + 1))
      && (!w.lost && m.tp !in tainted ==> ProcessedBelow(log, after, m.tp, m.offset + 1))
  {
    var m, after := w.c.hand[0], Dealt(w, done);
    assert KnowsBelow(w, log, m.tp, m.offset) && InPlace(w, m);
    BelowIsElsewhere(log, w.processed, after, m, m.tp, m.offset);
    assert forall i :: 0 <= i < |w.c.hand| && w.c.hand[i].tp == m.tp ==> m.offset <= w.c.hand[i].offset;
    assert forall x: Msg :: x.tp == m.tp && x.offset == m.offset ==> x == m;
    assert Covered(log, w.processed, w.c.hand, m.tp, m.offset) <==> ProcessedBelow(log, w.processed, m.tp, m.offset);
    if m.tp in w.tainted {
      BelowIsElsewhere(log, w.processed, after, m, m.tp, w.c.stored[m.tp]);
    }
  }

  lemma RecordsKnowsStored(w: World, log: set<Msg>, done: bool)
    requires InOrder(w, log) && Knows(w, log) && Can(w, log, Handled(done, false))
    ensures KnowsStored(Records(w, done), log)
  {
    var m := w.c.hand[0];
    assert InPlace(w, m);
    RecordsStored(w, log, done);
    forall tp | tp in w.c.stored && tp != m.tp
      ensures ProcessedBelow(log, Dealt(w, done), tp, w.c.stored[tp])
        <==> ProcessedBelow(log, w.processed, tp, w.c.stored[tp])
    {
      BelowIsElsewhere(log, w.processed, Dealt(w, done), m, tp, w.c.stored[tp]);
    }
  }

  lemma RecordsKnowsCommitted(w: World, log: set<Msg>, done: bool)
    requires InOrder(w, log) && KnowsCommitted(w, log) && Can(w, log, Handled(done, false))
    ensures KnowsCommitted(Records(w, done), log)
  {
    assert InPlace(w, w.c.hand[0]);
    forall tp | tp in w.committed
      ensures ProcessedBelow(log, Dealt(w, done), tp, w.committed[tp])
        <==> ProcessedBelow(log, w.processed, tp, w.committed[tp])
    {
      BelowIsElsewhere(log, w.processed, Dealt(w, done), w.c.hand[0], tp, w.committed[tp]);
    }
  }

  lemma RecordsKnows(w: World, log: set<Msg>, done: bool)
    requires InOrder(w, log) && Knows(w, log) && Can(w, log, Handled(done, false))
    ensures Knows(Records(w, done), log)
  {
    var w' := Records(w, done);
    RecordsKnowsCommitted(w, log, done);
    RecordsKnowsStored(w, log, done);
    forall tp | tp in w'.c.held
      ensures KnowsBelow(w', log, tp, Get(w'.c.position, tp))
    {
      RecordsBelow(w, log, done, tp, Get(w.c.position, tp));
    }
    forall i | 0 <= i < |w'.c.hand| && w'.c.hand[i].tp in w'.c.held
      ensures KnowsBelow(w', log, w'.c.hand[i].tp, w'.c.hand[i].offset)
    {
      assert w'.c.hand[i] == w.c.hand[i + 1];
      RecordsBelow(w, log, done, w.c.hand[i + 1].tp, w.c.hand[i + 1].offset);
    }
  }

  /** A tainted offset, once committed, is a loss; untainted ones are safe to commit. */
  lemma CommitsKnows(w: World, log: set<Msg>)
    requires InOrder(w, log) && Knows(w, log)
    ensures Knows(Commits(w), log)
  {
    var w' := Commits(w);
    if w.tainted != {} {
      var tp :| tp in w.tainted;
      assert w'.committed[tp] == w.c.stored[tp];
    } else if w.lost {
      var tp :| tp in w.committed && !ProcessedBelow(log, w.processed, tp, w.committed[tp]);
      assert w.committed[tp] <= w'.committed[tp];
    }
    forall tp, offset: nat | KnowsBelow(w, log, tp, offset)
      ensures KnowsBelow(w', log, tp, offset)
    {
    }
  }

  lemma PassesBelow(w: World, log: set<Msg>, tp: TP, offset: nat)
    requires HandInPlace(w, log) && w.c.hand != [] && tp in w.c.held && KnowsBelow(w, log, tp, offset)
    requires w.c.hand[0].tp == tp ==> w.c.hand[0].offset < offset
    ensures KnowsBelow(PassesOver(w), log, tp, offset)
  {
    CoveredElsewhere(log, w.processed, w.processed, w.c.hand, tp, offset);
    if w.c.hand[0] !in w.processed && w.c.hand[0].tp == tp {
      NowMissing(log, w.processed, w.c.hand, offset);
    }
  }

  lemma PassesKnows(w: World, log: set<Msg>)
    requires InOrder(w, log) && Knows(w, log) && w.c.hand != []
    ensures Knows(PassesOver(w), log)
  {
    var w' := PassesOver(w);
    assert InPlace(w, w.c.hand[0]);
    forall tp | tp in w'.c.held
      ensures KnowsBelow(w', log, tp, Get(w'.c.position, tp))
    {
      PassesBelow(w, log, tp, Get(w.c.position, tp));
    }
    forall i | 0 <= i < |w'.c.hand| && w'.c.hand[i].tp in w'.c.held
      ensures KnowsBelow(w', log, w'.c.hand[i].tp, w'.c.hand[i].offset)
    {
      assert w'.c.hand[i] == w.c.hand[i + 1];
      PassesBelow(w, log, w.c.hand[i + 1].tp, w.c.hand[i + 1].offset);
    }
  }

  lemma GainKnows(w: World, log: set<Msg>, tps: set<TP>)
    requires Knows(w, log) && Can(w, log, Gained(tps))
    ensures Knows(Step(w, log, Gained(tps)), log)
  {
    var w' := Step(w, log, Gained(tps));
    forall tp | tp in w'.c.held
      ensures KnowsBelow(w', log, tp, Get(w'.c.position, tp))
    {
      if tp in tps {
        assert Get(w'.c.position, tp) == Get(w.committed, tp);
        assert !w.lost && tp in w.committed ==> ProcessedBelow(log, w.processed, tp, w.committed[tp]);
      } else {
        assert KnowsBelow(w, log, tp, Get(w.c.position, tp));
      }
    }
    forall i | 0 <= i < |w.c.hand| && w.c.hand[i].tp in w'.c.held
      ensures KnowsBelow(w', log, w.c.hand[i].tp, w.c.hand[i].offset)
    {
      assert KnowsBelow(w, log, w.c.hand[i].tp, w.c.hand[i].offset);
    }
  }

  lemma DropKnows(w: World, log: set<Msg>, tps: set<TP>)
    requires Knows(w, log)
    ensures Knows(Step(w, log, Dropped(tps)), log)
  {
    var w' := Step(w, log, Dropped(tps));
    forall tp | tp in w'.c.held
      ensures KnowsBelow(w', log, tp, Get(w'.c.position, tp))
    {
      assert KnowsBelow(w, log, tp, Get(w.c.position, tp));
    }
    forall i | 0 <= i < |w.c.hand| && w.c.hand[i].tp in w'.c.held
      ensures KnowsBelow(w', log, w.c.hand[i].tp, w.c.hand[i].offset)
    {
      assert KnowsBelow(w, log, w.c.hand[i].tp, w.c.hand[i].offset);
    }
  }

  /** A fetch brings all from the position on and nothing from before it. */
  lemma FetchBelow(w: World, log: set<Msg>, chunk: seq<Msg>, next: map<TP, nat>, tp: TP, offset: nat)
    requires Knows(w, log) && Can(w, log, Fetched(chunk, next)) && tp in w.c.held
    requires Get(w.c.position, tp) <= offset <= Get(next, tp)
    ensures KnowsBelow(Step(w, log, Fetched(chunk, next)), log, tp, offset)
  {
    assert KnowsBelow(w, log, tp, Get(w.c.position, tp));
    if tp in w.c.gap {
      var x :| x in log && x.tp == tp && x.offset < Get(w.c.position, tp) && x !in w.processed;
      assert x !in chunk;
    }
  }

  lemma FetchKnows(w: World, log: set<Msg>, chunk: seq<Msg>, next: map<TP, nat>)
    requires Knows(w, log) && Can(w, log, Fetched(chunk, next))
    ensures Knows(Step(w, log, Fetched(chunk, next)), log)
  {
    var w' := Step(w, log, Fetched(chunk, next));
    forall tp | tp in w'.c.held
      ensures KnowsBelow(w', log, tp, Get(w'.c.position, tp))
    {
      FetchBelow(w, log, chunk, next, tp, Get(next, tp));
    }
    forall i | 0 <= i < |chunk| && chunk[i].tp in w'.c.held
      ensures KnowsBelow(w', log, chunk[i].tp, chunk[i].offset)
    {
      FetchBelow(w, log, chunk, next, chunk[i].tp, chunk[i].offset);
    }
  }

  /** What other processes do to other partitions neither loses a message nor brings a lost one back. */
  lemma ElsewhereKnowsCommitted(w: World, log: set<Msg>, msgs: set<Msg>, offsets: map<TP, nat>)
    requires KnowsCommitted(w, log) && Can(w, log, Elsewhere(msgs, offsets))
    ensures KnowsCommitted(Step(w, log, Elsewhere(msgs, offsets)), log)
  {
    var w' := Step(w, log, Elsewhere(msgs, offsets));
    if w.lost {
      var tp :| tp in w.committed && !ProcessedBelow(log, w.processed, tp, w.committed[tp]);
      var x :| x in log && x.tp == tp && x.offset < w.committed[tp] && x !in w.processed;
      assert w.committed[tp] <= w'.committed[tp] && x !in w'.processed;
    } else {
      forall tp | tp in w'.committed
        ensures ProcessedBelow(log, w'.processed, tp, w'.committed[tp])
      {
        assert tp in w.committed ==> ProcessedBelow(log, w.processed, tp, w.committed[tp]);
      }
    }
  }

  lemma ElsewhereKnows(w: World, log: set<Msg>, msgs: set<Msg>, offsets: map<TP, nat>)
    requires InOrder(w, log) && Knows(w, log) && Can(w, log, Elsewhere(msgs, offsets))
    ensures Knows(Step(w, log, Elsewhere(msgs, offsets)), log)
  {
    var w' := Step(w, log, Elsewhere(msgs, offsets));
    ElsewhereKnowsCommitted(w, log, msgs, offsets);
    forall tp, offset: nat | tp in w.c.held
      ensures ProcessedBelow(log, w'.processed, tp, offset) <==> ProcessedBelow(log, w.processed, tp, offset)
      ensures KnowsBelow(w, log, tp, offset) ==> KnowsBelow(w', log, tp, offset)
    {
      assert forall m :: m in log && m.tp == tp ==> (m in w'.processed <==> m in w.processed);
    }
  }

  lemma StepKnows(w: World, log: set<Msg>, e: Event)
    requires InOrder(w, log) && Knows(w, log) && Can(w, log, e)
    ensures Knows(Step(w, log, e), log)
  {
    match e {
      case Gained(tps) => GainKnows(w, log, tps);
      case Dropped(tps) => DropKnows(w, log, tps);
      case Fetched(chunk, next) => FetchKnows(w, log, chunk, next);
      case Handled(done, commit) =>
        RecordsKnows(w, log, done);
        StoreInOrder(w, log, done);
        CommitsKnows(Records(w, done), log);
      case PassedOver => PassesKnows(w, log);
      case CommittedStored => CommitsKnows(w, log);
      case Elsewhere(msgs, offsets) => ElsewhereKnows(w, log, msgs, offsets);
    }
  }

  // ---------------------------------------------------------------------------------------
  // Exactly which histories lose a message
  // ---------------------------------------------------------------------------------------

  lemma {:induction false} RunKnows(w: World, log: set<Msg>, events: seq<Event>)
    requires InOrder(w, log) && Knows(w, log) && Possible(w, log, events)
    ensures Knows(Run(w, log, events), log)
    decreases |events|
  {
    if events != [] {
      StepInOrder(w, log, events[0]);
      StepKnows(w, log, events[0]);
      RunKnows(Step(w, log, events[0]), log, events[1..]);
    }
  }

  /** A process that holds nothing yet. */
  function Fresh(committed: map<TP, nat>, processed: set<Msg>): World {
    World(Consumer({}, 0, map[], map[], [], {}, {}), committed, processed, {}, false)
  }

  /**
   Whatever the order of assignments, revocations, fetches and commits, in both commit modes: a
   committed offset passes a message that was not dealt with exactly when some commit was made while a
   partition's stored offset came from a message recorded behind one that was passed over since the
   partition was last assigned, or from one whose handler had given up.
   */
  lemma HistoryIsSafeExactly(committed: map<TP, nat>, processed: set<Msg>, log: set<Msg>, events: seq<Event>)
    requires SafeOffsets(log, processed, committed) && Possible(Fresh(committed, processed), log, events)
    ensures
      var w := Run(Fresh(committed, processed), log, events);
      SafeOffsets(log, w.processed, w.committed) <==> !w.lost
  {
    RunKnows(Fresh(committed, processed), log, events);
  }

  // ---------------------------------------------------------------------------------------
  // Committing after every message
  // ---------------------------------------------------------------------------------------

  predicate CommitsEveryTime(events: seq<Event>) {
    forall i :: 0 <= i < |events| && events[i].Handled? ==> events[i].commit
  }

  /** Some message is recorded behind one passed over, or after its handler gave up. */
  ghost predicate RecordsPastOne(w: World, log: set<Msg>, events: seq<Event>)
    requires Possible(w, log, events)
    decreases |events|
  {
    events != [] &&
    ((events[0].Handled? && Taints(w, events[0].done)) || RecordsPastOne(Step(w, log, events[0]), log, events[1..]))
  }

  lemma {:induction false} EveryTaintIsCommitted(w: World, log: set<Msg>, events: seq<Event>)
    requires Possible(w, log, events) && CommitsEveryTime(events) && (w.lost || w.tainted == {})
    ensures Run(w, log, events).lost <==> w.lost || RecordsPastOne(w, log, events)
    decreases |events|
  {
    if events != [] {
      EveryTaintIsCommitted(Step(w, log, events[0]), log, events[1..]);
    }
  }

  /** payperuse_consumer commits after every message: one such record is enough, and nothing else loses any. */
  lemma PerMessageLosesExactly(committed: map<TP, nat>, processed: set<Msg>, log: set<Msg>, events: seq<Event>)
    requires SafeOffsets(log, processed, committed) && Possible(Fresh(committed, processed), log, events)
    requires CommitsEveryTime(events)
    ensures
      var w := Run(Fresh(committed, processed), log, events);
      SafeOffsets(log, w.processed, w.committed) <==> !RecordsPastOne(Fresh(committed, processed), log, events)
  {
    HistoryIsSafeExactly(committed, processed, log, events);
    EveryTaintIsCommitted(Fresh(committed, processed), log, events);
  }

  // ---------------------------------------------------------------------------------------
  // Three short histories
  // ---------------------------------------------------------------------------------------

  const M0 := Msg(P0, 0)
  const M1 := Msg(P0, 1)

  /** P0 assigned and its first message fetched. */
  function Opened(): World { World(Consumer({P0}, 1, map[], map[P0 := 1], [M0], {}, {}), map[], {}, {}, false) }

  lemma Then(w: World, log: set<Msg>, e: Event, rest: seq<Event>)
    requires Can(w, log, e) && Possible(Step(w, log, e), log, rest)
    ensures Possible(w, log, [e] + rest) && Run(w, log, [e] + rest) == Run(Step(w, log, e), log, rest)
  {
    assert ([e] + rest)[1..] == rest;
  }

  function AfterOpening(rest: seq<Event>): seq<Event> { [Gained({P0})] + ([Fetched([M0], map[P0 := 1])] + rest) }

  lemma Opening(rest: seq<Event>)
    requires Possible(Opened(), {M0, M1}, rest)
    ensures Possible(Fresh(map[], {}), {M0, M1}, AfterOpening(rest))
    ensures Run(Fresh(map[], {}), {M0, M1}, AfterOpening(rest)) == Run(Opened(), {M0, M1}, rest)
  {
    var log, w := {M0, M1}, Fresh(map[], {});
    var w1 := Step(w, log, Gained({P0}));
    assert w1.c == Consumer({P0}, 1, map[], map[P0 := 0], [], {}, {});
    assert Step(w1, log, Fetched([M0], map[P0 := 1])) == Opened();
    Then(w1, log, Fetched([M0], map[P0 := 1]), rest);
    Then(w, log, Gained({P0}), [Fetched([M0], map[P0 := 1])] + rest);
  }

  /** Whether a history that starts with the opening ends with a message lost. */
  ghost predicate Loses(rest: seq<Event>) {
    && Possible(Fresh(map[], {}), {M0, M1}, AfterOpening(rest))
    && var w := Run(Fresh(map[], {}), {M0, M1}, AfterOpening(rest));
       !SafeOffsets({M0, M1}, w.processed, w.committed)
  }

  lemma LosesIfNoted(rest: seq<Event>)
    requires Possible(Opened(), {M0, M1}, rest)
    ensures Loses(rest) <==> Run(Opened(), {M0, M1}, rest).lost
  {
    Opening(rest);
    HistoryIsSafeExactly(map[], {}, {M0, M1}, AfterOpening(rest));
  }

  /** A handler that gives up loses its message with the commit that follows. */
  lemma GivingUpLosesTheMessage()
    ensures Loses([Handled(false, true)])
  {
    Then(Opened(), {M0, M1}, Handled(false, true), []);
    assert [Handled(false, true)] + [] == [Handled(false, true)];
    LosesIfNoted([Handled(false, true)]);
  }

  /** A chunk broken off at the deadline: the next fetch goes on behind it, and its commit passes what was left. */
  lemma TheNextFetchGoesOn()
    ensures Loses([PassedOver] + ([Fetched([M1], map[P0 := 2])] + [Handled(true, true)]))
  {
    var log := {M0, M1};
    var w1 := Step(Opened(), log, PassedOver);
    assert w1.c.hand == [] && ValidFetch(w1.c, log, [M1], map[P0 := 2]);
    var w2 := Step(w1, log, Fetched([M1], map[P0 := 2]));
    Then(w2, log, Handled(true, true), []);
    Then(w1, log, Fetched([M1], map[P0 := 2]), [Handled(true, true)]);
    Then(Opened(), log, PassedOver, [Fetched([M1], map[P0 := 2])] + [Handled(true, true)]);
    LosesIfNoted([PassedOver] + ([Fetched([M1], map[P0 := 2])] + [Handled(true, true)]));
  }

  function Refetch(): seq<Event> { [Fetched([M0, M1], map[P0 := 2])] + [Handled(true, true)] }

  lemma Refetched(w: World)
    requires w.c.held == {P0} && w.c.gap == {} && w.c.hand == [] && w.c.stored == map[] && w.c.position == map[P0 := 0]
    requires w.tainted == {} && !w.lost
    ensures Possible(w, {M0, M1}, Refetch()) && !Run(w, {M0, M1}, Refetch()).lost
  {
    var log, fetch := {M0, M1}, Fetched([M0, M1], map[P0 := 2]);
    assert M0 in [M0, M1] && M1 in [M0, M1];
    assert ValidFetch(w.c, log, [M0, M1], map[P0 := 2]);
    Then(Step(w, log, fetch), log, Handled(true, true), []);
    Then(w, log, fetch, [Handled(true, true)]);
  }

  function BackAgain(): seq<Event> { [PassedOver] + ([Dropped({P0})] + ([Gained({P0})] + Refetch())) }

  /** Unless the partition is given away and comes back first: then the abandoned message is fetched again. */
  lemma AnAssignmentBringsItBack()
    ensures Possible(Opened(), {M0, M1}, BackAgain()) && !Loses(BackAgain())
  {
    var log := {M0, M1};
    var w1 := Step(Opened(), log, PassedOver);
    var w2 := Step(w1, log, Dropped({P0}));
    var w3 := Step(w2, log, Gained({P0}));
    Refetched(w3);
    Then(w2, log, Gained({P0}), Refetch());
    Then(w1, log, Dropped({P0}), [Gained({P0})] + Refetch());
    Then(Opened(), log, PassedOver, [Dropped({P0})] + ([Gained({P0})] + Refetch()));
    LosesIfNoted(BackAgain());
  }
}
