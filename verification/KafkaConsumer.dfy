/**
 The consumer group protocol of services/kafka-consumers (bootstrap/consumers.py, ManagedConsumer):
 rebalance callbacks, the fence, stored and committed offsets, and the rule its docstring puts on
 the loop. The group is a state machine over the calls that reach the client library; the loop is
 any loop, so every interleaving of its steps is covered.
 */
module KafkaConsumer {

  datatype TP = TP(topic: string, partition: int)

  datatype Msg = Msg(tp: TP, offset: nat)

  /**
   What one process knows. position is the next offset the client will fetch, hand the messages of
   the current chunk not looked at yet. ended holds the partitions whose part of this chunk is
   over; gap those whose position has moved past a message that was left unprocessed.
   */
  datatype Consumer = Consumer(
    held: set<TP>, generation: nat, stored: map<TP, nat>,
    position: map<TP, nat>, hand: seq<Msg>, ended: set<TP>, gap: set<TP>)

  function Get(m: map<TP, nat>, tp: TP): nat { if tp in m then m[tp] else 0 }

  // ---------------------------------------------------------------------------------------
  // The client calls
  // ---------------------------------------------------------------------------------------

  /** on_assign: the partitions start at their committed offset, with nothing stored. */
  function Gain(c: Consumer, tps: set<TP>, committed: map<TP, nat>): Consumer {
    c.(held := c.held + tps, generation := c.generation + 1, stored := c.stored - tps,
       position := c.position + (map tp | tp in tps :: Get(committed, tp)), gap := c.gap - tps)
  }

  /** on_revoke and on_lost: the same state change, no commit. */
  function Drop(c: Consumer, tps: set<TP>): Consumer {
    c.(held := c.held - tps, generation := c.generation + 1, stored := c.stored - tps)
  }

  predicate Owns(c: Consumer, m: Msg) { m.tp in c.held }

  /** store_offsets: the high-water mark of offset + 1; refused for a partition not held. */
  function Store(c: Consumer, m: Msg): Consumer {
    if Owns(c, m) then
      var mark := Get(c.stored, m.tp);
      c.(stored := c.stored[m.tp := if m.offset + 1 > mark then m.offset + 1 else mark])
    else c
  }

  /** A bare commit(): the stored offset of every held partition; nothing stored commits nothing. */
  function Commit(c: Consumer, committed: map<TP, nat>): map<TP, nat> {
    committed + (map tp | tp in c.stored && tp in c.held :: c.stored[tp])
  }

  // ---------------------------------------------------------------------------------------
  // The group
  // ---------------------------------------------------------------------------------------

  /** committed is the broker's, processed the messages whose handler has returned somewhere. */
  datatype Group = Group(members: map<int, Consumer>, committed: map<TP, nat>, processed: set<Msg>)

  datatype Action =
    | Assign(tps: set<TP>)
    | Revoke(tps: set<TP>)
    | Lost(tps: set<TP>)
    | Fetch(chunk: seq<Msg>, next: map<TP, nat>)
    /** The handler of the next message returns and the message is recorded. */
    | Record(commit: bool)
    /** The handler returned, but the partition was taken before the message was recorded. */
    | HandledOnly
    /** The next message is given up: fenced, failed, or its partition's part is over. */
    | Skip
    | CommitStored

  datatype Step = Step(member: int, action: Action)

  predicate AscendingPerPartition(chunk: seq<Msg>) {
    forall i, j :: 0 <= i < j < |chunk| && chunk[i].tp == chunk[j].tp ==> chunk[i].offset < chunk[j].offset
  }

  /**
   A fetch returns, of each held partition, consecutive messages of the log from its position on,
   interleaved in any way; next is where the positions end up.
   */
  ghost predicate ValidFetch(c: Consumer, log: set<Msg>, chunk: seq<Msg>, next: map<TP, nat>) {
    && c.hand == [] && AscendingPerPartition(chunk)
    && (forall i :: 0 <= i < |chunk| ==>
          chunk[i].tp in c.held && Get(c.position, chunk[i].tp) <= chunk[i].offset < Get(next, chunk[i].tp))
    && (forall m :: m in log && m.tp in c.held && Get(c.position, m.tp) <= m.offset < Get(next, m.tp) ==> m in chunk)
    && (forall tp :: tp in c.held ==> Get(c.position, tp) <= Get(next, tp))
  }

  /** The loop's rule: only the next message, while held, of a partition whose part is not over. */
  predicate MayRecord(c: Consumer) {
    c.hand != [] && Owns(c, c.hand[0]) && c.hand[0].tp !in c.ended
  }

  function Recorded(c: Consumer): Consumer
    requires c.hand != []
  {
    Store(c, c.hand[0]).(hand := c.hand[1..])
  }

  function Skipped(c: Consumer): Consumer
    requires c.hand != []
  {
    c.(hand := c.hand[1..], ended := c.ended + {c.hand[0].tp}, gap := c.gap + {c.hand[0].tp})
  }

  ghost predicate Enabled(s: Group, log: set<Msg>, step: Step) {
    step.member in s.members &&
    var c := s.members[step.member];
    match step.action
    case Assign(tps) => true
    case Revoke(tps) => true
    case Lost(tps) => true
    case Fetch(chunk, next) => ValidFetch(c, log, chunk, next)
    case Record(_) => MayRecord(c)
    case HandledOnly => c.hand != []
    case Skip => c.hand != []
    case CommitStored => true
  }

  function Apply(s: Group, log: set<Msg>, step: Step): Group
    requires Enabled(s, log, step)
  {
    var c := s.members[step.member];
    match step.action
    case Assign(tps) => s.(members := s.members[step.member := Gain(c, tps, s.committed)])
    case Revoke(tps) => s.(members := s.members[step.member := Drop(c, tps)])
    case Lost(tps) => s.(members := s.members[step.member := Drop(c, tps)])
    case Fetch(chunk, next) =>
      s.(members := s.members[step.member := c.(hand := chunk, position := next, ended := c.gap)])
    case Record(commit) =>
      var c' := Recorded(c);
      Group(s.members[step.member := c'], if commit then Commit(c', s.committed) else s.committed,
            s.processed + {c.hand[0]})
    case HandledOnly =>
      Group(s.members[step.member := c.(hand := c.hand[1..])], s.committed, s.processed + {c.hand[0]})
    case Skip => s.(members := s.members[step.member := Skipped(c)])
    case CommitStored => s.(committed := Commit(c, s.committed))
  }

  // ---------------------------------------------------------------------------------------
  // No committed offset passes an unprocessed message
  // ---------------------------------------------------------------------------------------

  /** Every message of the partition before the offset has been processed. */
  ghost predicate ProcessedBelow(log: set<Msg>, processed: set<Msg>, tp: TP, offset: nat) {
    forall m :: m in log && m.tp == tp && m.offset < offset ==> m in processed
  }

  ghost predicate Covered(log: set<Msg>, processed: set<Msg>, hand: seq<Msg>, tp: TP, offset: nat) {
    forall m :: m in log && m.tp == tp && m.offset < offset ==> m in processed || m in hand
  }

  /** What a restart needs: it resumes at the committed offset and redelivers all that is missing. */
  ghost predicate Safe(s: Group, log: set<Msg>) {
    forall tp :: tp in s.committed ==> ProcessedBelow(log, s.processed, tp, s.committed[tp])
  }

  ghost predicate MemberInv(c: Consumer, log: set<Msg>, processed: set<Msg>) {
    && AscendingPerPartition(c.hand)
    && (forall tp :: tp in c.stored ==> ProcessedBelow(log, processed, tp, c.stored[tp]))
    && (forall tp :: tp in c.held && tp !in c.gap ==> Covered(log, processed, c.hand, tp, Get(c.position, tp)))
    && (forall i :: 0 <= i < |c.hand| && c.hand[i].tp !in c.ended ==>
          Covered(log, processed, c.hand, c.hand[i].tp, c.hand[i].offset))
  }

  ghost predicate Inv(s: Group, log: set<Msg>) {
    && Safe(s, log)
    && (forall n :: n in s.members ==> MemberInv(s.members[n], log, s.processed))
  }

  lemma ProcessedGrows(c: Consumer, log: set<Msg>, before: set<Msg>, after: set<Msg>)
    requires MemberInv(c, log, before) && before <= after
    ensures MemberInv(c, log, after)
  {
  }

  lemma TailCovers(log: set<Msg>, processed: set<Msg>, hand: seq<Msg>, tp: TP, offset: nat)
    requires hand != [] && Covered(log, processed, hand, tp, offset)
    requires hand[0] in processed || hand[0].tp != tp
    ensures Covered(log, processed, hand[1..], tp, offset)
  {
    assert hand == [hand[0]] + hand[1..];
  }

  /** The next message of a partition whose part is not over has only processed messages before it. */
  lemma HeadIsNext(c: Consumer, log: set<Msg>, processed: set<Msg>)
    requires MemberInv(c, log, processed) && MayRecord(c)
    ensures ProcessedBelow(log, processed + {c.hand[0]}, c.hand[0].tp, c.hand[0].offset + 1)
  {
    var head := c.hand[0];
    assert Covered(log, processed, c.hand, head.tp, head.offset);
    assert forall i :: 0 < i < |c.hand| && c.hand[i].tp == head.tp ==> head.offset < c.hand[i].offset;
    assert forall m: Msg :: m.tp == head.tp && m.offset == head.offset ==> m == head;
  }

  lemma HandledKeepsInv(c: Consumer, log: set<Msg>, processed: set<Msg>)
    requires MemberInv(c, log, processed) && c.hand != []
    ensures MemberInv(c.(hand := c.hand[1..]), log, processed + {c.hand[0]})
  {
    var after := processed + {c.hand[0]};
    ProcessedGrows(c, log, processed, after);
    forall tp | tp in c.held && tp !in c.gap
      ensures Covered(log, after, c.hand[1..], tp, Get(c.position, tp))
    {
      TailCovers(log, after, c.hand, tp, Get(c.position, tp));
    }
    forall i | 0 <= i < |c.hand[1..]| && c.hand[1..][i].tp !in c.ended
      ensures Covered(log, after, c.hand[1..], c.hand[1..][i].tp, c.hand[1..][i].offset)
    {
      assert c.hand[1..][i] == c.hand[i + 1];
      TailCovers(log, after, c.hand, c.hand[i + 1].tp, c.hand[i + 1].offset);
    }
  }

  lemma RecordKeepsInv(c: Consumer, log: set<Msg>, processed: set<Msg>)
    requires MemberInv(c, log, processed) && MayRecord(c)
    ensures MemberInv(Recorded(c), log, processed + {c.hand[0]})
  {
    HandledKeepsInv(c, log, processed);
    HeadIsNext(c, log, processed);
  }

  lemma SkipKeepsInv(c: Consumer, log: set<Msg>, processed: set<Msg>)
    requires MemberInv(c, log, processed) && c.hand != []
    ensures MemberInv(Skipped(c), log, processed)
  {
    var c' := Skipped(c);
    forall tp | tp in c'.held && tp !in c'.gap
      ensures Covered(log, processed, c'.hand, tp, Get(c'.position, tp))
    {
      TailCovers(log, processed, c.hand, tp, Get(c.position, tp));
    }
    forall i | 0 <= i < |c'.hand| && c'.hand[i].tp !in c'.ended
      ensures Covered(log, processed, c'.hand, c'.hand[i].tp, c'.hand[i].offset)
    {
      assert c'.hand[i] == c.hand[i + 1];
      TailCovers(log, processed, c.hand, c.hand[i + 1].tp, c.hand[i + 1].offset);
    }
  }

  lemma AssignKeepsInv(s: Group, c: Consumer, log: set<Msg>, tps: set<TP>)
    requires MemberInv(c, log, s.processed) && Safe(s, log)
    ensures MemberInv(Gain(c, tps, s.committed), log, s.processed)
  {
    var c' := Gain(c, tps, s.committed);
    forall tp | tp in tps
      ensures Covered(log, s.processed, c'.hand, tp, Get(c'.position, tp))
    {
      assert Get(c'.position, tp) == Get(s.committed, tp);
      assert tp in s.committed ==> ProcessedBelow(log, s.processed, tp, s.committed[tp]);
    }
  }

  lemma FetchKeepsInv(c: Consumer, log: set<Msg>, processed: set<Msg>, chunk: seq<Msg>, next: map<TP, nat>)
    requires MemberInv(c, log, processed) && ValidFetch(c, log, chunk, next)
    ensures MemberInv(c.(hand := chunk, position := next, ended := c.gap), log, processed)
  {
    forall tp | tp in c.held && tp !in c.gap
      ensures Covered(log, processed, chunk, tp, Get(next, tp))
    {
      assert Covered(log, processed, c.hand, tp, Get(c.position, tp));
    }
  }

  lemma CommitIsSafe(s: Group, c: Consumer, log: set<Msg>)
    requires Safe(s, log) && MemberInv(c, log, s.processed)
    ensures Safe(s.(committed := Commit(c, s.committed)), log)
  {
  }

  lemma StepKeepsInv(s: Group, log: set<Msg>, step: Step)
    requires Inv(s, log) && Enabled(s, log, step)
    ensures Inv(Apply(s, log, step), log)
  {
    var c := s.members[step.member];
    match step.action {
      case Assign(tps) => AssignKeepsInv(s, c, log, tps);
      case Revoke(_) =>
      case Lost(_) =>
      case Fetch(chunk, next) => FetchKeepsInv(c, log, s.processed, chunk, next);
      case Record(commit) => RecordStepKeepsInv(s, log, step);
      case HandledOnly =>
        HandledKeepsInv(c, log, s.processed);
        OthersKeepInv(s, log, s.processed + {c.hand[0]});
      case Skip => SkipKeepsInv(c, log, s.processed);
      case CommitStored => CommitIsSafe(s, c, log);
    }
  }

  lemma RecordStepKeepsInv(s: Group, log: set<Msg>, step: Step)
    requires Inv(s, log) && Enabled(s, log, step) && step.action.Record?
    ensures Inv(Apply(s, log, step), log)
  {
    var c := s.members[step.member];
    var after := s.processed + {c.hand[0]};
    RecordKeepsInv(c, log, s.processed);
    OthersKeepInv(s, log, after);
    CommitIsSafe(s.(processed := after), Recorded(c), log);
  }

  lemma OthersKeepInv(s: Group, log: set<Msg>, after: set<Msg>)
    requires Inv(s, log) && s.processed <= after
    ensures Safe(s.(processed := after), log)
    ensures forall n :: n in s.members ==> MemberInv(s.members[n], log, after)
  {
    forall n | n in s.members ensures MemberInv(s.members[n], log, after) {
      ProcessedGrows(s.members[n], log, s.processed, after);
    }
  }

  // ---------------------------------------------------------------------------------------
  // Every history
  // ---------------------------------------------------------------------------------------

  ghost predicate Possible(s: Group, log: set<Msg>, steps: seq<Step>)
    decreases |steps|
  {
    steps == [] || (Enabled(s, log, steps[0]) && Possible(Apply(s, log, steps[0]), log, steps[1..]))
  }

  ghost function Run(s: Group, log: set<Msg>, steps: seq<Step>): Group
    requires Possible(s, log, steps)
    decreases |steps|
  {
    if steps == [] then s else Run(Apply(s, log, steps[0]), log, steps[1..])
  }

  /** A group of processes that hold nothing yet, resuming from safe committed offsets. */
  ghost predicate Start(s: Group, log: set<Msg>) {
    && Safe(s, log)
    && forall n :: n in s.members ==> s.members[n] == Consumer({}, 0, map[], map[], [], {}, {})
  }

  lemma {:induction false} RunKeepsInv(s: Group, log: set<Msg>, steps: seq<Step>)
    requires Inv(s, log) && Possible(s, log, steps)
    ensures Inv(Run(s, log, steps), log)
    decreases |steps|
  {
    if steps != [] {
      StepKeepsInv(s, log, steps[0]);
      RunKeepsInv(Apply(s, log, steps[0]), log, steps[1..]);
    }
  }

  /**
   Whatever the interleaving of chunks, failures, fence drops and rebalances over the group, two
   processes holding a partition at once included, the committed offset of a partition never passes a
   message that was not processed.
   */
  lemma CommittedNeverPassesUnprocessed(s: Group, log: set<Msg>, steps: seq<Step>)
    requires Start(s, log) && Possible(s, log, steps)
    ensures Safe(Run(s, log, steps), log)
  {
    forall n | n in s.members ensures MemberInv(s.members[n], log, s.processed) {
    }
    RunKeepsInv(s, log, steps);
  }

  /**
   What safety is for: a process that is assigned the partition resumes at or before every message of
   it that is still unprocessed, and a fetch that gets past such a message returns it.
   */
  lemma RestartRedelivers(s: Group, log: set<Msg>, c: Consumer, tps: set<TP>, chunk: seq<Msg>, next: map<TP, nat>,
                          m: Msg)
    requires Safe(s, log) && m in log && m.tp in tps && m !in s.processed
    ensures Get(Gain(c, tps, s.committed).position, m.tp) <= m.offset
    ensures ValidFetch(Gain(c, tps, s.committed), log, chunk, next) && m.offset < Get(next, m.tp) ==> m in chunk
  {
    assert m.tp in s.committed ==> ProcessedBelow(log, s.processed, m.tp, s.committed[m.tp]);
  }

  /** Each message in hand is recorded, and then what is stored is committed. */
  function Finishing(member: int, messages: nat, commit: bool): seq<Step> {
    if messages == 0 then [Step(member, CommitStored)]
    else [Step(member, Record(commit))] + Finishing(member, messages - 1, commit)
  }

  predicate MayFinish(c: Consumer) {
    forall i :: 0 <= i < |c.hand| ==> Owns(c, c.hand[i]) && c.hand[i].tp !in c.ended
  }

  /** Every message is processed and lies before the committed offset of its partition. */
  predicate Settled(s: Group, msgs: seq<Msg>) {
    forall i :: 0 <= i < |msgs| ==> msgs[i] in s.processed && msgs[i].offset < Get(s.committed, msgs[i].tp)
  }

  /** The messages in hand can be finished, and nothing stored or processed before is lost by it. */
  ghost predicate FinishesTo(s: Group, member: int, e: Group) {
    && member in s.members && member in e.members
    && e.members[member].hand == []
    && s.processed <= e.processed
    && Settled(e, s.members[member].hand)
    && (forall tp :: tp in s.members[member].held ==>
          Get(s.members[member].stored, tp) <= Get(e.committed, tp))
  }

  lemma {:induction false} HandCanBeFinished(s: Group, log: set<Msg>, member: int, messages: nat, commit: bool)
    requires member in s.members && messages == |s.members[member].hand| && MayFinish(s.members[member])
    ensures Possible(s, log, Finishing(member, messages, commit))
    ensures FinishesTo(s, member, Run(s, log, Finishing(member, messages, commit)))
    decreases messages
  {
    var steps := Finishing(member, messages, commit);
    var t := Apply(s, log, steps[0]);
    if messages == 0 {
      assert steps[1..] == [];
    } else {
      var rest := messages - 1;
      assert steps[1..] == Finishing(member, rest, commit);
      HandCanBeFinished(t, log, member, rest, commit);
      HeadIsSettledToo(s, log, member, commit, t, Run(t, log, steps[1..]));
    }
  }

  lemma HeadIsSettledToo(s: Group, log: set<Msg>, member: int, commit: bool, t: Group, e: Group)
    requires member in s.members && MayRecord(s.members[member])
    requires t == Apply(s, log, Step(member, Record(commit))) && FinishesTo(t, member, e)
    ensures FinishesTo(s, member, e)
  {
    var hand := s.members[member].hand;
    assert hand[0] in t.processed && hand[0].offset < Get(t.members[member].stored, hand[0].tp);
    forall i | 0 <= i < |hand| ensures hand[i] in e.processed && hand[i].offset < Get(e.committed, hand[i].tp) {
      if i > 0 {
        assert hand[i] == t.members[member].hand[i - 1];
      }
    }
  }

  /**
   The protocol gets somewhere: whatever a process newly assigned some partitions fetches from them, it
   can process to the end, with commits per message or one at the end. Then each message is committed,
   and none of those partitions has an unprocessed one before the position reached.
   */
  lemma AssignedChunkCanBeFinished(s: Group, log: set<Msg>, member: int, tps: set<TP>, chunk: seq<Msg>,
                                   next: map<TP, nat>, commit: bool)
    requires Safe(s, log) && member in s.members
    requires ValidFetch(Gain(s.members[member], tps, s.committed), log, chunk, next)
    requires forall i :: 0 <= i < |chunk| ==> chunk[i].tp in tps
    ensures
      var steps := [Step(member, Assign(tps)), Step(member, Fetch(chunk, next))] + Finishing(member, |chunk|, commit);
      && Possible(s, log, steps)
      && var e := Run(s, log, steps);
         && member in e.members && e.members[member].hand == []
         && Settled(e, chunk)
         && forall tp :: tp in tps ==> ProcessedBelow(log, e.processed, tp, Get(next, tp))
  {
    var finishing := Finishing(member, |chunk|, commit);
    var fetch := [Step(member, Fetch(chunk, next))] + finishing;
    var steps := [Step(member, Assign(tps)), Step(member, Fetch(chunk, next))] + finishing;
    var gained := Apply(s, log, Step(member, Assign(tps)));
    var fetched := Apply(gained, log, Step(member, Fetch(chunk, next)));
    HandCanBeFinished(fetched, log, member, |chunk|, commit);
    assert fetch[1..] == finishing && steps[1..] == fetch;
    var e := Run(fetched, log, finishing);
    assert Run(s, log, steps) == Run(gained, log, fetch) == e;
    forall tp | tp in tps ensures ProcessedBelow(log, e.processed, tp, Get(next, tp)) {
      NextIsReached(s, log, Gain(s.members[member], tps, s.committed), tps, chunk, next, e, tp);
    }
  }

  lemma NextIsReached(s: Group, log: set<Msg>, c: Consumer, tps: set<TP>, chunk: seq<Msg>, next: map<TP, nat>,
                      e: Group, tp: TP)
    requires Safe(s, log) && tp in tps && tp in c.held && Get(c.position, tp) == Get(s.committed, tp)
    requires ValidFetch(c, log, chunk, next) && s.processed <= e.processed && Settled(e, chunk)
    ensures ProcessedBelow(log, e.processed, tp, Get(next, tp))
  {
    forall m | m in log && m.tp == tp && m.offset < Get(next, tp) ensures m in e.processed {
      if m.offset < Get(c.position, tp) {
        assert ProcessedBelow(log, s.processed, tp, s.committed[tp]);
      } else {
        assert m in chunk;
      }
    }
  }

  // ---------------------------------------------------------------------------------------
  // Ownership
  // ---------------------------------------------------------------------------------------

  predicate OneOwner(s: Group) {
    forall n, k :: n in s.members && k in s.members && n != k ==> s.members[n].held !! s.members[k].held
  }

  predicate Unheld(s: Group, member: int, tps: set<TP>) {
    forall n :: n in s.members && n != member ==> s.members[n].held !! tps
  }

  /** The coordinator waits: it hands out a partition only after its holder has dropped it. */
  predicate Waits(s: Group, step: Step) { step.action.Assign? ==> Unheld(s, step.member, step.action.tps) }

  ghost predicate AlwaysWaits(s: Group, log: set<Msg>, steps: seq<Step>)
    requires Possible(s, log, steps)
    decreases |steps|
  {
    steps == [] || (Waits(s, steps[0]) && AlwaysWaits(Apply(s, log, steps[0]), log, steps[1..]))
  }

  lemma StepKeepsOneOwner(s: Group, log: set<Msg>, step: Step)
    requires OneOwner(s) && Enabled(s, log, step) && Waits(s, step)
    ensures OneOwner(Apply(s, log, step))
  {
  }

  /** While the coordinator waits, at most one process owns a partition in every reachable state. */
  lemma {:induction false} AtMostOneOwner(s: Group, log: set<Msg>, steps: seq<Step>)
    requires OneOwner(s) && Possible(s, log, steps) && AlwaysWaits(s, log, steps)
    ensures OneOwner(Run(s, log, steps))
    decreases |steps|
  {
    if steps != [] {
      StepKeepsOneOwner(s, log, steps[0]);
      AtMostOneOwner(Apply(s, log, steps[0]), log, steps[1..]);
    }
  }

  datatype Callback = Assigned(tps: set<TP>) | Revoked(tps: set<TP>) | LostTo(tps: set<TP>)

  function Called(c: Consumer, cb: Callback, committed: map<TP, nat>): Consumer {
    match cb
    case Assigned(tps) => Gain(c, tps, committed)
    case Revoked(tps) => Drop(c, tps)
    case LostTo(tps) => Drop(c, tps)
  }

  function AfterCallbacks(c: Consumer, history: seq<Callback>, committed: map<TP, nat>): Consumer {
    if history == [] then c
    else Called(AfterCallbacks(c, history[..|history| - 1], committed), history[|history| - 1], committed)
  }

  /** The latest callback that names the partition gave it to this process. */
  predicate LatestIsAssign(history: seq<Callback>, tp: TP) {
    exists i :: 0 <= i < |history| && history[i].Assigned? && tp in history[i].tps &&
      forall j :: i < j < |history| ==> tp !in history[j].tps || history[j].Assigned?
  }

  /** owns() holds exactly for the partitions last assigned; the generation counts the callbacks. */
  lemma {:induction false} OwnsExactly(c: Consumer, history: seq<Callback>, committed: map<TP, nat>, m: Msg)
    requires c.held == {} && c.generation == 0
    ensures Owns(AfterCallbacks(c, history, committed), m) <==> LatestIsAssign(history, m.tp)
    ensures AfterCallbacks(c, history, committed).generation == |history|
  {
    if history != [] {
      var init, last := history[..|history| - 1], history[|history| - 1];
      OwnsExactly(c, init, committed, m);
      LatestStep(history, m.tp);
    }
  }

  lemma LatestStep(history: seq<Callback>, tp: TP)
    requires history != []
    ensures
      var last := history[|history| - 1];
      LatestIsAssign(history, tp) <==>
        if tp in last.tps then last.Assigned? else LatestIsAssign(history[..|history| - 1], tp)
  {
    var n := |history| - 1;
    var init, last := history[..n], history[n];
    if tp in last.tps {
      if last.Assigned? {
        assert history[n].Assigned? && tp in history[n].tps;
      }
    } else {
      if i :| 0 <= i < |init| && init[i].Assigned? && tp in init[i].tps &&
              forall j :: i < j < |init| ==> tp !in init[j].tps || init[j].Assigned? {
        assert history[i] == init[i];
        assert forall j :: i < j < n ==> history[j] == init[j];
      }
      if i :| 0 <= i < |history| && history[i].Assigned? && tp in history[i].tps &&
              forall j :: i < j < |history| ==> tp !in history[j].tps || history[j].Assigned? {
        assert init[i] == history[i];
        assert forall j :: i < j < n ==> history[j] == init[j];
      }
    }
  }

  // ---------------------------------------------------------------------------------------
  // Why the loop's rule is needed, in both commit modes
  // ---------------------------------------------------------------------------------------

  /** What one recorded and committed message leaves to be asked of the earlier ones. */
  lemma RecordLeavesEarlier(c: Consumer, log: set<Msg>, processed: set<Msg>, committed: map<TP, nat>, m: Msg)
    requires Owns(c, m) && m in log && Get(c.stored, m.tp) <= m.offset
    ensures ProcessedBelow(log, processed + {m}, m.tp, Get(Commit(Store(c, m), committed), m.tp)) <==>
            ProcessedBelow(log, processed, m.tp, m.offset)
  {
    assert Get(Commit(Store(c, m), committed), m.tp) == m.offset + 1;
    assert forall x: Msg :: x.tp == m.tp && x.offset == m.offset ==> x == m;
    if ProcessedBelow(log, processed + {m}, m.tp, m.offset + 1) {
      forall x | x in log && x.tp == m.tp && x.offset < m.offset ensures x in processed {
      }
    }
  }

  const P0 := TP("t", 0)

  /** Committing after every message, a loop that goes on past a failed one commits past it. */
  lemma PerMessageCommitsPastAFailure()
    ensures
      var first, second := Msg(P0, 0), Msg(P0, 1);
      var c := Consumer({P0}, 1, map[], map[P0 := 2], [first, second], {}, {});
      var c1 := Skipped(c);
      var c2 := Store(c1, c1.hand[0]);
      && MemberInv(c, {first, second}, {}) && !MayRecord(c1)
      && !ProcessedBelow({first, second}, {second}, P0, Get(Commit(c2, map[]), P0))
  {
    var first, second := Msg(P0, 0), Msg(P0, 1);
    var c := Consumer({P0}, 1, map[], map[P0 := 2], [first, second], {}, {});
    var c1 := Skipped(c);
    assert c1.hand == [second];
    RecordLeavesEarlier(c1, {first, second}, {}, map[], second);
    assert first in {first, second} && first !in {};
  }

  /**
   Ending the partition's part of one chunk is not enough: the next fetch goes on after the failed
   message, and recording what it returns commits past it. The part stays over until the partition
   is assigned anew (gap), or the process restarts.
   */
  lemma RuleOutlivesTheChunk()
    ensures
      var first, second := Msg(P0, 0), Msg(P0, 1);
      var log := {first, second};
      var c := Consumer({P0}, 1, map[], map[P0 := 1], [first], {}, {});
      var c1 := Skipped(c);
      var forgetful := c1.(hand := [second], position := map[P0 := 2], ended := {});
      && MemberInv(c, log, {}) && ValidFetch(c1, log, [second], map[P0 := 2]) && MayRecord(forgetful)
      && !ProcessedBelow(log, {second}, P0, Get(Commit(Recorded(forgetful), map[]), P0))
  {
    var first, second := Msg(P0, 0), Msg(P0, 1);
    var log := {first, second};
    var c := Consumer({P0}, 1, map[], map[P0 := 1], [first], {}, {});
    var c1 := Skipped(c);
    assert c1.hand == [];
    var forgetful := c1.(hand := [second], position := map[P0 := 2], ended := {});
    RecordLeavesEarlier(forgetful, log, {}, map[], second);
    assert first in log && first !in {};
  }

  // ---------------------------------------------------------------------------------------
  // The two commit modes
  // ---------------------------------------------------------------------------------------

  datatype CommitMode = PerMessage | PerBatch

  /** The client after storing the messages in turn; the mode makes no difference to it. */
  function StoreAll(c: Consumer, msgs: seq<Msg>): Consumer {
    if msgs == [] then c else Store(StoreAll(c, msgs[..|msgs| - 1]), msgs[|msgs| - 1])
  }

  /** The broker after the first n calls of record_processed(msg, flush = is last of the chunk). */
  function Committed(mode: CommitMode, c: Consumer, committed: map<TP, nat>, msgs: seq<Msg>, n: nat): map<TP, nat>
    requires n <= |msgs|
  {
    if n == 0 then committed
    else
      var before := Committed(mode, c, committed, msgs, n - 1);
      if mode == PerMessage || n == |msgs| then Commit(StoreAll(c, msgs[..n]), before) else before
  }

  lemma {:induction false} StoreAllKeeps(c: Consumer, msgs: seq<Msg>)
    ensures StoreAll(c, msgs).held == c.held
  {
    if msgs != [] {
      StoreAllKeeps(c, msgs[..|msgs| - 1]);
    }
  }

  /** A later commit hides an earlier one of the same assignment. */
  lemma CommitTwice(c: Consumer, m: Msg, committed: map<TP, nat>)
    ensures Commit(Store(c, m), Commit(c, committed)) == Commit(Store(c, m), committed)
  {
  }

  lemma {:induction false} PerMessageCommits(c: Consumer, committed: map<TP, nat>, msgs: seq<Msg>, n: nat)
    requires 0 < n <= |msgs|
    ensures Committed(PerMessage, c, committed, msgs, n) == Commit(StoreAll(c, msgs[..n]), committed)
  {
    if n > 1 {
      PerMessageCommits(c, committed, msgs, n - 1);
      assert msgs[..n][..n - 1] == msgs[..n - 1];
      CommitTwice(StoreAll(c, msgs[..n - 1]), msgs[n - 1], committed);
    }
  }

  lemma {:induction false} PerBatchWaits(c: Consumer, committed: map<TP, nat>, msgs: seq<Msg>, n: nat)
    requires n < |msgs|
    ensures Committed(PerBatch, c, committed, msgs, n) == committed
  {
    if n > 0 {
      PerBatchWaits(c, committed, msgs, n - 1);
    }
  }

  /** A fully processed chunk ends with the same committed offsets in both modes. */
  lemma ModesAgreeAtChunkEnd(c: Consumer, committed: map<TP, nat>, msgs: seq<Msg>)
    ensures Committed(PerBatch, c, committed, msgs, |msgs|) == Committed(PerMessage, c, committed, msgs, |msgs|)
  {
    if msgs != [] {
      PerBatchWaits(c, committed, msgs, |msgs| - 1);
      PerMessageCommits(c, committed, msgs, |msgs|);
    }
  }

  /** Nothing stored, and nothing in the chunk, lies before the committed offsets. */
  predicate AtOrPastCommitted(c: Consumer, committed: map<TP, nat>, msgs: seq<Msg>) {
    && (forall tp :: tp in c.stored ==> Get(committed, tp) <= c.stored[tp])
    && (forall i :: 0 <= i < |msgs| ==> Get(committed, msgs[i].tp) <= msgs[i].offset)
  }

  lemma {:induction false} StoreAllPast(c: Consumer, committed: map<TP, nat>, msgs: seq<Msg>)
    requires AtOrPastCommitted(c, committed, msgs)
    ensures forall tp :: tp in StoreAll(c, msgs).stored ==> Get(committed, tp) <= StoreAll(c, msgs).stored[tp]
  {
    if msgs != [] {
      StoreAllPast(c, committed, msgs[..|msgs| - 1]);
    }
  }

  /** At every prefix of the chunk the batched offsets are no further than the per-message ones. */
  lemma BatchedIsNeverAhead(c: Consumer, committed: map<TP, nat>, msgs: seq<Msg>, n: nat, tp: TP)
    requires n <= |msgs| && AtOrPastCommitted(c, committed, msgs)
    ensures Get(Committed(PerBatch, c, committed, msgs, n), tp) <= Get(Committed(PerMessage, c, committed, msgs, n), tp)
  {
    if n == |msgs| {
      ModesAgreeAtChunkEnd(c, committed, msgs);
    } else if n > 0 {
      PerBatchWaits(c, committed, msgs, n);
      PerMessageCommits(c, committed, msgs, n);
      StoreAllPast(c, committed, msgs[..n]);
    }
  }

  // ---------------------------------------------------------------------------------------
  // ManagedConsumer
  // ---------------------------------------------------------------------------------------

  class Broker {
    var committed: map<TP, nat>

    constructor (committed: map<TP, nat>)
      ensures this.committed == committed
    {
      this.committed := committed;
    }
  }

  class ManagedConsumer {
    const mode: CommitMode
    const broker: Broker
    var held: set<TP>
    var generation: nat
    var stored: map<TP, nat>
    var position: map<TP, nat>

    constructor (mode: CommitMode, broker: Broker)
      ensures this.mode == mode && this.broker == broker
      ensures View() == Consumer({}, 0, map[], map[], [], {}, {})
    {
      this.mode, this.broker := mode, broker;
      held, generation, stored, position := {}, 0, map[], map[];
    }

    /** The client's own state; the loop's chunk is not part of it. */
    ghost function View(): Consumer
      reads this
    {
      Consumer(held, generation, stored, position, [], {}, {})
    }

    /** Every hook is called, in order; one that raises is logged and does not keep the next from running. */
    method RunHooks(raises: seq<bool>) returns (called: seq<nat>, failed: nat)
      ensures |called| == |raises| && forall i :: 0 <= i < |called| ==> called[i] == i
      ensures failed == multiset(raises)[true]
    {
      called, failed := [], 0;
      for i := 0 to |raises|
        invariant |called| == i && forall k :: 0 <= k < i ==> called[k] == k
        invariant failed == multiset(raises[..i])[true]
      {
        assert raises[..i + 1] == raises[..i] + [raises[i]];
        called := called + [i];
        if raises[i] {
          failed := failed + 1;
        }
      }
      assert raises[..|raises|] == raises;
    }

    method OnAssign(tps: set<TP>, hooks: seq<bool>)
      modifies this
      ensures View() == Gain(old(View()), tps, broker.committed)
      ensures held == old(held) + tps && generation == old(generation) + 1 && stored == old(stored) - tps
      ensures forall tp :: tp in tps ==>
        tp in position && position[tp] == if tp in broker.committed then broker.committed[tp] else 0
      ensures position - tps == old(position) - tps
    {
      held := held + tps;
      generation := generation + 1;
      stored := stored - tps;
      position := position + (map tp | tp in tps :: Get(broker.committed, tp));
      var _, _ := RunHooks(hooks);
    }

    method OnRevoke(tps: set<TP>, hooks: seq<bool>)
      modifies this
      ensures View() == Drop(old(View()), tps)
      ensures held == old(held) - tps && generation == old(generation) + 1
      ensures stored == old(stored) - tps && position == old(position)
    {
      DropPartitions(tps, hooks);
    }

    method OnLost(tps: set<TP>, hooks: seq<bool>)
      modifies this
      ensures View() == Drop(old(View()), tps)
      ensures held == old(held) - tps && generation == old(generation) + 1
      ensures stored == old(stored) - tps && position == old(position)
    {
      DropPartitions(tps, hooks);
    }

    method DropPartitions(tps: set<TP>, hooks: seq<bool>)
      modifies this
      ensures View() == Drop(old(View()), tps)
      ensures held == old(held) - tps && generation == old(generation) + 1
      ensures stored == old(stored) - tps && position == old(position)
    {
      held := held - tps;
      generation := generation + 1;
      var _, _ := RunHooks(hooks);
      stored := stored - tps;
    }

    /** store_offsets, which never takes a stored offset back. */
    method StoreProcessed(m: Msg)
      modifies this
      ensures View() == Store(old(View()), m)
      ensures m.tp !in held ==> stored == old(stored)
      ensures m.tp in held ==>
        && m.tp in stored && stored - {m.tp} == old(stored) - {m.tp}
        && m.offset < stored[m.tp] && (m.tp in old(stored) ==> old(stored)[m.tp] <= stored[m.tp])
        && (stored[m.tp] == m.offset + 1 || (m.tp in old(stored) && stored[m.tp] == old(stored)[m.tp]))
    {
      if m.tp in held {
        var mark := Get(stored, m.tp);
        stored := stored[m.tp := if m.offset + 1 > mark then m.offset + 1 else mark];
      }
    }

    method CommitStored()
      modifies broker
      ensures broker.committed == Commit(View(), old(broker.committed))
      ensures forall tp :: tp in stored && tp in held ==> tp in broker.committed && broker.committed[tp] == stored[tp]
      ensures broker.committed - (stored.Keys * held) == old(broker.committed) - (stored.Keys * held)
    {
      broker.committed := broker.committed + (map tp | tp in stored && tp in held :: stored[tp]);
    }

    method RecordProcessed(m: Msg, flush: bool)
      modifies this, broker
      ensures View() == Store(old(View()), m)
      ensures broker.committed ==
        if mode == PerMessage || flush then Commit(View(), old(broker.committed)) else old(broker.committed)
    {
      StoreProcessed(m);
      if mode == PerMessage || flush {
        CommitStored();
      }
    }

    /** A chunk whose every message was handled: one loop for both modes. */
    method RecordChunk(msgs: seq<Msg>)
      modifies this, broker
      ensures View() == StoreAll(old(View()), msgs)
      ensures broker.committed == Committed(mode, old(View()), old(broker.committed), msgs, |msgs|)
    {
      for i := 0 to |msgs|
        invariant View() == StoreAll(old(View()), msgs[..i])
        invariant broker.committed == Committed(mode, old(View()), old(broker.committed), msgs, i)
      {
        assert msgs[..i + 1][..i] == msgs[..i];
        RecordProcessed(msgs[i], i == |msgs| - 1);
      }
      assert msgs[..|msgs|] == msgs;
    }
  }
}
