/**
 daily_usage under every interleaving of nightly rollups, backfill checks, backfill writes and
 undos (services/pyjob/jobs/daily_usage_consolidation.py, services/pyjob/backfill).

 A backfill run checks its days in one transaction and writes each day in another, so anything may
 happen in between. A step that the code refuses (BackfillError, a unique violation) leaves the
 state as it was.
 */
module UsageLedger {
  import opened Options
  import opened PartitionedTable
  import opened DailyRollup
  import UsageEvents

  /** An inclusive range of days that a backfill run has checked and may write. */
  datatype Days = Days(first: int, last: int)

  /**
   today is the IST date, clock the latest rollup transaction's start; cleared are the ranges
   whose check passed, each of which may be written, in part or repeatedly, at any later time.
   */
  datatype State = State(today: int, clock: int, events: seq<Event>, daily: Daily, cleared: set<Days>)

  datatype Step =
    | NextDay(count: nat)
    | Record(event: Event)
    /** The nightly job that started on date runDate rolls the day back + 1 days before it. */
    | RollUp(runDate: int, back: nat, now: int)
    | Check(days: Days)
    | Write(day: int, rows: map<Key, Measures>, now: int)
    | Undo

  /** The earliest day the nightly rollup still re-rolls. */
  function FirstRollupDay(today: int, lookback: nat): int { today - (1 + lookback) }

  predicate InDays(d: Days, day: int) { d.first <= day <= d.last }

  predicate Recorded(daily: Daily, d: Days) {
    exists k :: k in daily && daily[k].source == Rollup && InDays(d, k.date)
  }

  predicate CheckPasses(s: State, d: Days, lookback: nat) {
    && d.first <= d.last < FirstRollupDay(s.today, lookback)
    && !Recorded(s.daily, d)
  }

  function DeleteBackfillOf(daily: Daily, day: int): Daily {
    map k | k in daily && !(daily[k].source == Backfill && k.date == day) :: daily[k]
  }

  predicate Checked(s: State, day: int) { exists d :: d in s.cleared && InDays(d, day) }

  predicate DatedOn(rows: map<Key, Measures>, day: int) { forall k :: k in rows ==> k.date == day }

  predicate WriteAllowed(s: State, day: int, rows: map<Key, Measures>) {
    && Checked(s, day) && DatedOn(rows, day)
    && rows.Keys !! DeleteBackfillOf(s.daily, day).Keys
  }

  /** Replace the day's backfill rows: delete them, then a plain insert. */
  function WriteDay(daily: Daily, day: int, rows: map<Key, Measures>, now: int): Daily {
    DeleteBackfillOf(daily, day) + (map k | k in rows :: Stored(Backfill, rows[k], now))
  }

  function Only(daily: Daily, source: Source): Daily {
    map k | k in daily && daily[k].source == source :: daily[k]
  }

  predicate RollUpRuns(s: State, step: Step, lookback: nat)
    requires step.RollUp?
  {
    step.runDate <= s.today && step.back <= lookback && s.clock < step.now
  }

  function RolledDay(runDate: int, back: nat): int { runDate - 1 - back }

  function Rolled(g: Grid, s: State, day: int, now: int): State {
    s.(daily := RollupTable(g, s.daily, s.events, day, now), clock := now)
  }

  function AfterWrite(s: State, day: int, rows: map<Key, Measures>, now: int): State {
    if WriteAllowed(s, day, rows) then s.(daily := WriteDay(s.daily, day, rows, now)) else s
  }

  function Apply(g: Grid, s: State, step: Step, lookback: nat): State {
    match step
    case NextDay(count) => s.(today := s.today + count)
    case Record(e) => s.(events := s.events + [e])
    case RollUp(runDate, back, now) =>
      if RollUpRuns(s, step, lookback) then Rolled(g, s, RolledDay(runDate, back), now) else s
    case Check(d) => if CheckPasses(s, d, lookback) then s.(cleared := s.cleared + {d}) else s
    case Write(day, rows, now) => AfterWrite(s, day, rows, now)
    case Undo => s.(daily := Only(s.daily, Rollup))
  }

  function Run(g: Grid, s: State, steps: seq<Step>, lookback: nat): State
    decreases |steps|
  {
    if steps == [] then s else Run(g, Apply(g, s, steps[0], lookback), steps[1..], lookback)
  }

  /** No nightly job is still rolling days of a date that has passed. */
  predicate Prompt(s: State, step: Step) { step.RollUp? ==> step.runDate == s.today }

  predicate AllPrompt(g: Grid, s: State, steps: seq<Step>, lookback: nat)
    decreases |steps|
  {
    steps == [] ||
    (Prompt(s, steps[0]) && AllPrompt(g, Apply(g, s, steps[0], lookback), steps[1..], lookback))
  }

  // ---------------------------------------------------------------------------------------
  // Safety
  // ---------------------------------------------------------------------------------------

  predicate NoMixedDay(daily: Daily) {
    forall k, l :: k in daily && l in daily && k.date == l.date ==> daily[k].source == daily[l].source
  }

  predicate RollupRowsOld(daily: Daily, clock: int) {
    forall k :: k in daily && daily[k].source == Rollup ==> daily[k].updatedAt <= clock
  }

  /** Cleared days stay out of the rollup's reach and free of rollup rows; backfill rows lie on them. */
  ghost predicate Inv(s: State, lookback: nat) {
    && (forall d :: d in s.cleared ==> d.last < FirstRollupDay(s.today, lookback) && !Recorded(s.daily, d))
    && (forall k :: k in s.daily && s.daily[k].source == Backfill ==> exists d :: d in s.cleared && InDays(d, k.date))
    && RollupRowsOld(s.daily, s.clock)
  }

  predicate Initial(s: State) {
    && s.cleared == {}
    && (forall k :: k in s.daily ==> s.daily[k].source == Rollup)
    && RollupRowsOld(s.daily, s.clock)
  }

  lemma InvSeparatesSources(s: State, lookback: nat)
    requires Inv(s, lookback)
    ensures NoMixedDay(s.daily)
  {
    forall k, l | k in s.daily && l in s.daily && k.date == l.date && s.daily[k].source == Backfill
      ensures s.daily[l].source == Backfill
    {
      var d :| d in s.cleared && InDays(d, k.date);
      assert !Recorded(s.daily, d);
    }
  }

  /** Whatever the rollup writes or deletes is dated on its day. */
  lemma RollupTouchesItsDay(g: Grid, daily: Daily, events: seq<Event>, day: int, now: int)
    ensures
      var r := RollupTable(g, daily, events, day, now);
      && (forall k :: k in daily && k.date != day ==> k in r && r[k] == daily[k])
      && (forall k :: k in r && k.date != day ==> k in daily)
      && (forall k :: k in r && k in daily ==> r[k].source == daily[k].source)
      && (forall k :: k in r && k !in daily ==> r[k].source == Rollup)
      && (forall k :: k in r && r[k].updatedAt != now ==> k in daily && r[k] == daily[k])
  {
    GroupDates(g, events, day);
  }

  lemma RollUpKeepsInv(g: Grid, s: State, step: Step, lookback: nat)
    requires Inv(s, lookback) && step.RollUp? && Prompt(s, step) && RollUpRuns(s, step, lookback)
    ensures Inv(Apply(g, s, step, lookback), lookback)
  {
    var day := RolledDay(step.runDate, step.back);
    var s' := Apply(g, s, step, lookback);
    RollupTouchesItsDay(g, s.daily, s.events, day, step.now);
    forall d | d in s'.cleared
      ensures !Recorded(s'.daily, d)
    {
      assert !InDays(d, day);
      forall k | k in s'.daily && InDays(d, k.date)
        ensures s'.daily[k].source == Backfill
      {
        assert k in s.daily && s'.daily[k] == s.daily[k];
        assert !Recorded(s.daily, d);
      }
    }
  }

  lemma WriteKeepsInv(g: Grid, s: State, step: Step, lookback: nat)
    requires Inv(s, lookback) && step.Write? && WriteAllowed(s, step.day, step.rows)
    ensures Inv(Apply(g, s, step, lookback), lookback)
  {
    var s' := Apply(g, s, step, lookback);
    forall d | d in s'.cleared
      ensures !Recorded(s'.daily, d)
    {
      forall k | k in s'.daily && InDays(d, k.date)
        ensures s'.daily[k].source == Backfill
      {
        if k !in step.rows {
          assert k in s.daily && s'.daily[k] == s.daily[k];
          assert !Recorded(s.daily, d);
        }
      }
    }
  }

  lemma StepKeepsInv(g: Grid, s: State, step: Step, lookback: nat)
    requires Inv(s, lookback) && Prompt(s, step)
    ensures Inv(Apply(g, s, step, lookback), lookback)
  {
    match step {
      case NextDay(_) =>
      case Record(_) =>
      case RollUp(_, _, _) =>
        if RollUpRuns(s, step, lookback) { RollUpKeepsInv(g, s, step, lookback); }
      case Check(_) =>
      case Write(_, _, _) =>
        if WriteAllowed(s, step.day, step.rows) { WriteKeepsInv(g, s, step, lookback); }
      case Undo =>
        UndoKeepsInv(s, lookback);
    }
  }

  lemma UndoKeepsInv(s: State, lookback: nat)
    requires Inv(s, lookback)
    ensures Inv(s.(daily := Only(s.daily, Rollup)), lookback)
  {
    var daily := Only(s.daily, Rollup);
    forall d | d in s.cleared
      ensures !Recorded(daily, d)
    {
      assert !Recorded(s.daily, d);
    }
  }

  lemma InitialInv(s: State, lookback: nat)
    requires Initial(s)
    ensures Inv(s, lookback)
  {
  }

  lemma {:induction false} RunKeepsInv(g: Grid, s: State, steps: seq<Step>, lookback: nat)
    requires Inv(s, lookback) && AllPrompt(g, s, steps, lookback)
    ensures Inv(Run(g, s, steps, lookback), lookback)
    decreases |steps|
  {
    if steps != [] {
      StepKeepsInv(g, s, steps[0], lookback);
      RunKeepsInv(g, Apply(g, s, steps[0], lookback), steps[1..], lookback);
    }
  }

  /** In every reachable state no day holds both rollup and backfill rows. */
  lemma NoDayIsEverMixed(g: Grid, s: State, steps: seq<Step>, lookback: nat)
    requires Initial(s) && AllPrompt(g, s, steps, lookback)
    ensures NoMixedDay(Run(g, s, steps, lookback).daily)
  {
    InitialInv(s, lookback);
    RunKeepsInv(g, s, steps, lookback);
    InvSeparatesSources(Run(g, s, steps, lookback), lookback);
  }

  // ---------------------------------------------------------------------------------------
  // Undo
  // ---------------------------------------------------------------------------------------

  /** The same history as if the backfill had never existed. */
  function WithoutBackfill(steps: seq<Step>): seq<Step> {
    if steps == [] then []
    else
      (if steps[0].Check? || steps[0].Write? || steps[0].Undo? then [] else [steps[0]]) + WithoutBackfill(steps[1..])
  }

  /** The state with every trace of the backfill removed. */
  function Hidden(s: State): State { State(s.today, s.clock, s.events, Only(s.daily, Rollup), {}) }

  lemma OtherStepHidden(g: Grid, s: State, step: Step, lookback: nat)
    requires Inv(s, lookback) && Prompt(s, step)
    requires step.NextDay? || step.Record? || step.RollUp?
    ensures Hidden(Apply(g, s, step, lookback)) == Apply(g, Hidden(s), step, lookback)
  {
    if step.RollUp? && RollUpRuns(s, step, lookback) {
      ReachHasNoBackfill(s, lookback, RolledDay(step.runDate, step.back));
      RollUpHidden(g, s, step, lookback);
    } else {
      QuietStepHidden(g, s, step, lookback);
    }
  }

  lemma RollUpHidden(g: Grid, s: State, step: Step, lookback: nat)
    requires step.RollUp? && RollUpRuns(s, step, lookback)
    requires NoBackfillOn(s.daily, RolledDay(step.runDate, step.back))
    ensures Hidden(Apply(g, s, step, lookback)) == Apply(g, Hidden(s), step, lookback)
  {
    RolledHidden(g, s, RolledDay(step.runDate, step.back), step.now);
    ApplyRollUp(g, s, step, lookback);
    ApplyRollUp(g, Hidden(s), step, lookback);
  }

  lemma ApplyRollUp(g: Grid, s: State, step: Step, lookback: nat)
    requires step.RollUp? && RollUpRuns(s, step, lookback)
    ensures Apply(g, s, step, lookback) == Rolled(g, s, RolledDay(step.runDate, step.back), step.now)
  {
  }

  lemma QuietStepHidden(g: Grid, s: State, step: Step, lookback: nat)
    requires step.NextDay? || step.Record? || (step.RollUp? && !RollUpRuns(s, step, lookback))
    ensures Hidden(Apply(g, s, step, lookback)) == Apply(g, Hidden(s), step, lookback)
  {
  }

  lemma RolledHidden(g: Grid, s: State, day: int, now: int)
    requires NoBackfillOn(s.daily, day)
    ensures Hidden(Rolled(g, s, day, now)) == Rolled(g, Hidden(s), day, now)
  {
    OnlyRollup(g, s.daily, s.events, day, now);
  }

  lemma ReachHasNoBackfill(s: State, lookback: nat, day: int)
    requires Inv(s, lookback) && FirstRollupDay(s.today, lookback) <= day
    ensures NoBackfillOn(s.daily, day)
  {
  }

  lemma OnlyRollup(g: Grid, daily: Daily, events: seq<Event>, day: int, now: int)
    requires NoBackfillOn(daily, day)
    ensures Only(RollupTable(g, daily, events, day, now), Rollup)
      == RollupTable(g, Only(daily, Rollup), events, day, now)
  {
    GroupDates(g, events, day);
    var groups := Aggregate(g, events, day);
    OnlyUpsert(daily, groups, now);
    OnlyDelete(UpsertAll(daily, groups, groups.Keys, now), day, now);
  }

  lemma OnlyUpsert(daily: Daily, groups: map<Key, Measures>, now: int)
    requires forall k :: k in groups && k in daily ==> daily[k].source == Rollup
    ensures Only(UpsertAll(daily, groups, groups.Keys, now), Rollup)
         == UpsertAll(Only(daily, Rollup), groups, groups.Keys, now)
  {
  }

  lemma OnlyDelete(daily: Daily, day: int, now: int)
    ensures Only(DeleteStale(daily, day, now), Rollup) == DeleteStale(Only(daily, Rollup), day, now)
  {
  }

  lemma {:induction false} RunHidden(g: Grid, s: State, steps: seq<Step>, lookback: nat)
    requires Inv(s, lookback) && AllPrompt(g, s, steps, lookback)
    ensures Hidden(Run(g, s, steps, lookback)) == Run(g, Hidden(s), WithoutBackfill(steps), lookback)
    decreases |steps|
  {
    if steps != [] {
      var step, rest := steps[0], steps[1..];
      StepKeepsInv(g, s, step, lookback);
      RunHidden(g, Apply(g, s, step, lookback), rest, lookback);
      if step.Check? || step.Write? || step.Undo? {
        BackfillStepHidden(g, s, step, lookback);
        assert WithoutBackfill(steps) == WithoutBackfill(rest);
      } else {
        OtherStepHidden(g, s, step, lookback);
        FirstStep(g, Hidden(s), step, WithoutBackfill(rest), lookback);
      }
    }
  }

  lemma FirstStep(g: Grid, s: State, step: Step, rest: seq<Step>, lookback: nat)
    ensures Run(g, s, [step] + rest, lookback) == Run(g, Apply(g, s, step, lookback), rest, lookback)
  {
    assert ([step] + rest)[1..] == rest;
  }

  lemma BackfillStepHidden(g: Grid, s: State, step: Step, lookback: nat)
    requires step.Check? || step.Write? || step.Undo?
    ensures Hidden(Apply(g, s, step, lookback)) == Hidden(s)
  {
    if step.Write? && WriteAllowed(s, step.day, step.rows) {
      var daily := WriteDay(s.daily, step.day, step.rows, step.now);
      forall k | k in step.rows
        ensures k !in Only(s.daily, Rollup)
      {
        assert k !in DeleteBackfillOf(s.daily, step.day);
      }
    }
  }

  /**
   Undo, at any point of any history, leaves exactly the table that the same history produces
   without any backfill: same keys, measures, sources and timestamps.
   */
  lemma UndoErasesTheBackfill(g: Grid, s: State, steps: seq<Step>, lookback: nat)
    requires Initial(s) && AllPrompt(g, s, steps, lookback)
    ensures Apply(g, Run(g, s, steps, lookback), Undo, lookback).daily
         == Run(g, s, WithoutBackfill(steps), lookback).daily
  {
    InitialInv(s, lookback);
    assert Only(s.daily, Rollup) == s.daily;
    RunHidden(g, s, steps, lookback);
  }

  // ---------------------------------------------------------------------------------------
  // A whole nightly run
  // ---------------------------------------------------------------------------------------

  /** The day's rows are the group-by of its events, all from the rollup. */
  ghost predicate DayIsGroupBy(g: Grid, s: State, day: int) {
    var groups := Aggregate(g, s.events, day);
    && (forall k :: k in s.daily && k.date == day ==> k in groups && s.daily[k].source == Rollup)
    && (forall k :: k in groups ==> k in s.daily && s.daily[k].measures == groups[k])
  }

  lemma RolledDayIsGroupBy(g: Grid, s: State, day: int, now: int)
    requires NoBackfillOn(s.daily, day) && WrittenBefore(s.daily, day, now)
    ensures DayIsGroupBy(g, Rolled(g, s, day, now), day)
  {
    RollupRefinesGroupBy(g, s.daily, s.events, day, now);
  }

  lemma OtherDayStaysGroupBy(g: Grid, s: State, day: int, now: int, other: int)
    requires other != day && DayIsGroupBy(g, s, other)
    ensures DayIsGroupBy(g, Rolled(g, s, day, now), other)
  {
    RollupTouchesItsDay(g, s.daily, s.events, day, now);
    GroupDates(g, s.events, other);
  }

  lemma OtherDayKeys(g: Grid, events: seq<Event>, e: Event, day: int)
    requires DayOf(g, e) != day
    ensures GroupKeys(g, events + [e], day) == GroupKeys(g, events, day)
  {
    var more := events + [e];
    forall i | 0 <= i < |events| && DayOf(g, events[i]) == day
      ensures KeyOf(g, events[i]) in GroupKeys(g, more, day)
    {
      assert more[i] == events[i];
    }
  }

  /** An event of another day changes nothing in the day's groups. */
  lemma OtherDayEvent(g: Grid, events: seq<Event>, e: Event, day: int)
    requires DayOf(g, e) != day
    ensures Aggregate(g, events + [e], day) == Aggregate(g, events, day)
  {
    OtherDayKeys(g, events, e, day);
    forall k | k in GroupKeys(g, events, day)
      ensures GroupMeasures(g, events + [e], k) == GroupMeasures(g, events, k)
    {
      MeasuresStep(g, events, e, k);
    }
  }

  lemma InReachWrittenBefore(s: State, lookback: nat, day: int, now: int)
    requires Inv(s, lookback) && FirstRollupDay(s.today, lookback) <= day && s.clock < now
    ensures NoBackfillOn(s.daily, day) && WrittenBefore(s.daily, day, now)
  {
    ReachHasNoBackfill(s, lookback, day);
  }

  /** A rollup of one day in reach: that day becomes its group-by, and the others stay theirs. */
  lemma RollUpStep(g: Grid, s: State, step: Step, lookback: nat, day: int)
    requires Inv(s, lookback) && step.RollUp? && RollUpRuns(s, step, lookback)
      && FirstRollupDay(s.today, lookback) <= day
    requires RolledDay(step.runDate, step.back) == day || DayIsGroupBy(g, s, day)
    ensures DayIsGroupBy(g, Apply(g, s, step, lookback), day)
  {
    var rolled := RolledDay(step.runDate, step.back);
    ApplyRollUp(g, s, step, lookback);
    if rolled == day {
      InReachWrittenBefore(s, lookback, day, step.now);
      RolledDayIsGroupBy(g, s, day, step.now);
    } else {
      OtherDayStaysGroupBy(g, s, rolled, step.now, day);
    }
  }

  lemma WriteElsewhere(g: Grid, s: State, step: Step, lookback: nat, day: int)
    requires Inv(s, lookback) && step.Write? && WriteAllowed(s, step.day, step.rows)
    requires FirstRollupDay(s.today, lookback) <= day && DayIsGroupBy(g, s, day)
    ensures DayIsGroupBy(g, Apply(g, s, step, lookback), day)
  {
    var d :| d in s.cleared && InDays(d, step.day);
    assert step.day != day;
    GroupDates(g, s.events, day);
  }

  /** A step that leaves a rolled-up day alone: the day stays in reach, and none of its own events arrives. */
  predicate Leaves(g: Grid, s: State, step: Step, day: int, lookback: nat) {
    && (step.Record? ==> DayOf(g, step.event) != day)
    && FirstRollupDay(Apply(g, s, step, lookback).today, lookback) <= day
  }

  lemma StepKeepsGroupBy(g: Grid, s: State, step: Step, lookback: nat, day: int)
    requires Inv(s, lookback) && DayIsGroupBy(g, s, day) && Leaves(g, s, step, day, lookback)
    requires FirstRollupDay(s.today, lookback) <= day
    ensures DayIsGroupBy(g, Apply(g, s, step, lookback), day)
  {
    match step {
      case NextDay(_) =>
      case Record(e) => OtherDayEvent(g, s.events, e, day);
      case RollUp(_, _, _) =>
        if RollUpRuns(s, step, lookback) { RollUpStep(g, s, step, lookback, day); }
      case Check(_) =>
      case Write(_, _, _) =>
        if WriteAllowed(s, step.day, step.rows) { WriteElsewhere(g, s, step, lookback, day); }
      case Undo =>
        GroupDates(g, s.events, day);
    }
  }

  predicate AllLeave(g: Grid, s: State, steps: seq<Step>, day: int, lookback: nat)
    decreases |steps|
  {
    steps == [] ||
    (Leaves(g, s, steps[0], day, lookback) && AllLeave(g, Apply(g, s, steps[0], lookback), steps[1..], day, lookback))
  }

  /**
   A day once equal to the group-by of its events stays so whatever follows, in whatever order: the
   rollups of other days or of the day again, checks, writes, undos, events of other days.
   */
  lemma {:induction false} GroupByLasts(g: Grid, s: State, steps: seq<Step>, day: int, lookback: nat)
    requires Inv(s, lookback) && AllPrompt(g, s, steps, lookback) && AllLeave(g, s, steps, day, lookback)
    requires FirstRollupDay(s.today, lookback) <= day && DayIsGroupBy(g, s, day)
    ensures DayIsGroupBy(g, Run(g, s, steps, lookback), day)
    decreases |steps|
  {
    if steps != [] {
      StepKeepsInv(g, s, steps[0], lookback);
      StepKeepsGroupBy(g, s, steps[0], lookback, day);
      GroupByLasts(g, Apply(g, s, steps[0], lookback), steps[1..], day, lookback);
    }
  }

  /** A day rolled up in a history ends it as the group-by of its events. */
  lemma RolledUpDayConverges(g: Grid, s: State, step: Step, later: seq<Step>, lookback: nat)
    requires Inv(s, lookback) && step.RollUp? && Prompt(s, step) && RollUpRuns(s, step, lookback)
    requires
      var s1 := Apply(g, s, step, lookback);
      AllPrompt(g, s1, later, lookback) && AllLeave(g, s1, later, RolledDay(step.runDate, step.back), lookback)
    ensures DayIsGroupBy(g, Run(g, s, [step] + later, lookback), RolledDay(step.runDate, step.back))
  {
    var day := RolledDay(step.runDate, step.back);
    RollUpStep(g, s, step, lookback, day);
    StepKeepsInv(g, s, step, lookback);
    GroupByLasts(g, Apply(g, s, step, lookback), later, day, lookback);
    FirstStep(g, s, step, later, lookback);
  }

  // ---------------------------------------------------------------------------------------
  // The job's loop over the days
  // ---------------------------------------------------------------------------------------

  /** From the oldest day in reach to yesterday, one transaction each; one that raises is rolled back and skipped. */
  function NightlySteps(runDate: int, back: nat, nows: seq<int>, ok: seq<bool>): seq<Step>
    requires |nows| == |ok| == back + 1
  {
    (if ok[0] then [RollUp(runDate, back, nows[0])] else []) +
    if back == 0 then [] else NightlySteps(runDate, back - 1, nows[1..], ok[1..])
  }

  function RestOfNight(runDate: int, back: nat, nows: seq<int>, ok: seq<bool>): seq<Step>
    requires |nows| == |ok| == back + 1
  {
    if back == 0 then [] else NightlySteps(runDate, back - 1, nows[1..], ok[1..])
  }

  predicate Later(clock: int, nows: seq<int>) {
    forall i :: 0 <= i < |nows| ==> clock < nows[i] && forall j :: 0 <= j < i ==> nows[j] < nows[i]
  }

  /** What the first of the night's transactions does to the rest of the night. */
  lemma NightUnfolds(g: Grid, s: State, back: nat, nows: seq<int>, ok: seq<bool>, lookback: nat)
    requires |nows| == |ok| == back + 1 && back <= lookback && Later(s.clock, nows)
    ensures
      var step, s1 := RollUp(s.today, back, nows[0]), AfterOldest(g, s, back, nows[0], ok[0], lookback);
      && (ok[0] ==> Prompt(s, step) && RollUpRuns(s, step, lookback))
      && s1.today == s.today && s1.events == s.events && Later(s1.clock, nows[1..])
      && Run(g, s, NightlySteps(s.today, back, nows, ok), lookback)
         == Run(g, s1, RestOfNight(s.today, back, nows, ok), lookback)
  {
    NextOfNight(g, s, s.today, back, nows, ok, lookback);
  }

  lemma NextOfNight(g: Grid, s: State, runDate: int, back: nat, nows: seq<int>, ok: seq<bool>, lookback: nat)
    requires |nows| == |ok| == back + 1
    ensures Run(g, s, NightlySteps(runDate, back, nows, ok), lookback)
         == Run(g, if ok[0] then Apply(g, s, RollUp(runDate, back, nows[0]), lookback) else s,
                RestOfNight(runDate, back, nows, ok), lookback)
  {
    var rest := RestOfNight(runDate, back, nows, ok);
    FirstStep(g, s, RollUp(runDate, back, nows[0]), rest, lookback);
    assert [] + rest == rest;
  }

  function Transaction(g: Grid, s: State, runDate: int, back: nat, now: int, ok: bool, lookback: nat): State {
    if ok then Apply(g, s, RollUp(runDate, back, now), lookback) else s
  }

  /** What the night makes of s from its transaction i on. */
  function NightFrom(g: Grid, s: State, runDate: int, nows: seq<int>, ok: seq<bool>, i: nat, lookback: nat): State
    requires i <= |nows| == |ok|
    decreases |nows| - i
  {
    if i == |nows| then s
    else
      var s1 := Transaction(g, s, runDate, |nows| - 1 - i, nows[i], ok[i], lookback);
      NightFrom(g, s1, runDate, nows, ok, i + 1, lookback)
  }

  lemma {:induction false} NightIsItsSteps(
      g: Grid, s: State, runDate: int, nows: seq<int>, ok: seq<bool>, i: nat, lookback: nat)
    requires i < |nows| == |ok|
    ensures NightFrom(g, s, runDate, nows, ok, i, lookback)
         == Run(g, s, NightlySteps(runDate, |nows| - 1 - i, nows[i..], ok[i..]), lookback)
    decreases |nows| - i
  {
    var s1 := Transaction(g, s, runDate, |nows| - 1 - i, nows[i], ok[i], lookback);
    NextOfNight(g, s, runDate, |nows| - 1 - i, nows[i..], ok[i..], lookback);
    assert nows[i..][1..] == nows[i + 1..] && ok[i..][1..] == ok[i + 1..];
    if i + 1 < |nows| {
      NightIsItsSteps(g, s1, runDate, nows, ok, i + 1, lookback);
    }
  }

  lemma WholeNight(g: Grid, s: State, nows: seq<int>, ok: seq<bool>, lookback: nat)
    requires |nows| == |ok| == lookback + 1
    ensures NightFrom(g, s, s.today, nows, ok, 0, lookback)
         == Run(g, s, NightlySteps(s.today, lookback, nows, ok), lookback)
  {
    NightIsItsSteps(g, s, s.today, nows, ok, 0, lookback);
    assert nows[0..] == nows && ok[0..] == ok;
  }

  lemma {:induction false} NightIsQuiet(g: Grid, s: State, back: nat, nows: seq<int>, ok: seq<bool>, day: int,
                                        lookback: nat)
    requires |nows| == |ok| == back + 1 && back <= lookback && Later(s.clock, nows)
    requires FirstRollupDay(s.today, lookback) <= day
    ensures AllPrompt(g, s, NightlySteps(s.today, back, nows, ok), lookback)
    ensures AllLeave(g, s, NightlySteps(s.today, back, nows, ok), day, lookback)
    decreases back
  {
    var step, rest := RollUp(s.today, back, nows[0]), RestOfNight(s.today, back, nows, ok);
    NightUnfolds(g, s, back, nows, ok, lookback);
    if back > 0 {
      NightIsQuiet(g, if ok[0] then Apply(g, s, step, lookback) else s, back - 1, nows[1..], ok[1..], day, lookback);
    }
    if ok[0] {
      assert ([step] + rest)[1..] == rest;
    } else {
      assert [] + rest == rest;
    }
  }

  /** The state once the first of the night's transactions is over. */
  function AfterOldest(g: Grid, s: State, back: nat, now: int, ok: bool, lookback: nat): State {
    Transaction(g, s, s.today, back, now, ok, lookback)
  }

  lemma OldestKeepsInv(g: Grid, s: State, back: nat, now: int, ok: bool, lookback: nat)
    requires Inv(s, lookback)
    ensures Inv(AfterOldest(g, s, back, now, ok, lookback), lookback)
  {
    StepKeepsInv(g, s, RollUp(s.today, back, now), lookback);
  }

  lemma {:induction false} NightConvergesAt(
      g: Grid, s: State, back: nat, nows: seq<int>, ok: seq<bool>, b: nat, lookback: nat)
    requires Inv(s, lookback) && b <= back <= lookback && |nows| == |ok| == back + 1 && Later(s.clock, nows)
    requires ok[back - b]
    ensures DayIsGroupBy(g, Run(g, s, NightlySteps(s.today, back, nows, ok), lookback), RolledDay(s.today, b))
    decreases back
  {
    if b < back {
      NightUnfolds(g, s, back, nows, ok, lookback);
      OldestKeepsInv(g, s, back, nows[0], ok[0], lookback);
      NightConvergesAt(
        g, AfterOldest(g, s, back, nows[0], ok[0], lookback), back - 1, nows[1..], ok[1..], b, lookback);
    } else {
      OldestDayConverges(g, s, back, nows, ok, lookback);
    }
  }

  lemma OldestDayConverges(g: Grid, s: State, back: nat, nows: seq<int>, ok: seq<bool>, lookback: nat)
    requires Inv(s, lookback) && back <= lookback && |nows| == |ok| == back + 1 && Later(s.clock, nows) && ok[0]
    ensures DayIsGroupBy(g, Run(g, s, NightlySteps(s.today, back, nows, ok), lookback), RolledDay(s.today, back))
  {
    var step, day := RollUp(s.today, back, nows[0]), RolledDay(s.today, back);
    var s1 := Apply(g, s, step, lookback);
    NightUnfolds(g, s, back, nows, ok, lookback);
    StepKeepsInv(g, s, step, lookback);
    RollUpStep(g, s, step, lookback, day);
    if back > 0 {
      NightIsQuiet(g, s1, back - 1, nows[1..], ok[1..], day, lookback);
    }
    GroupByLasts(g, s1, RestOfNight(s.today, back, nows, ok), day, lookback);
  }

  /**
   A nightly run leaves every day whose transaction succeeds equal to the group-by of its events: the
   days are yesterday and those back before it, oldest first.
   */
  lemma NightlyRunConverges(
      g: Grid, s: State, back: nat, nows: seq<int>, ok: seq<bool>, day: int, lookback: nat)
    requires Inv(s, lookback) && back <= lookback && |nows| == |ok| == back + 1 && Later(s.clock, nows)
    requires s.today - 1 - back <= day <= s.today - 1 && ok[day - (s.today - 1 - back)]
    ensures DayIsGroupBy(g, Run(g, s, NightlySteps(s.today, back, nows, ok), lookback), day)
  {
    var b := s.today - 1 - day;
    NightConvergesAt(g, s, back, nows, ok, b, lookback);
  }

  /** The two tables have the same rows on all days but those from first to last. */
  ghost predicate SameOutside(a: Daily, b: Daily, first: int, last: int) {
    forall k: Key :: !(first <= k.date <= last) ==> (k in a <==> k in b) && (k in a ==> a[k] == b[k])
  }

  lemma RolledSameOutside(g: Grid, s: State, day: int, now: int)
    ensures SameOutside(s.daily, Rolled(g, s, day, now).daily, day, day)
  {
    RollupTouchesItsDay(g, s.daily, s.events, day, now);
  }

  /** A night touches the days in its reach and nothing else. */
  lemma {:induction false} NightStaysInReach(
      g: Grid, s: State, back: nat, nows: seq<int>, ok: seq<bool>, lookback: nat)
    requires |nows| == |ok| == back + 1 && back <= lookback && Later(s.clock, nows)
    ensures
      var s' := Run(g, s, NightlySteps(s.today, back, nows, ok), lookback);
      && s'.today == s.today && s'.events == s.events && s'.cleared == s.cleared
      && SameOutside(s.daily, s'.daily, s.today - 1 - back, s.today - 1)
    decreases back
  {
    var s1 := AfterOldest(g, s, back, nows[0], ok[0], lookback);
    NightUnfolds(g, s, back, nows, ok, lookback);
    OldestStaysInReach(g, s, back, nows[0], ok[0], lookback);
    if back > 0 {
      NightStaysInReach(g, s1, back - 1, nows[1..], ok[1..], lookback);
    }
  }

  lemma OldestStaysInReach(g: Grid, s: State, back: nat, now: int, ok: bool, lookback: nat)
    ensures
      var s' := AfterOldest(g, s, back, now, ok, lookback);
      && s'.today == s.today && s'.events == s.events && s'.cleared == s.cleared
      && SameOutside(s.daily, s'.daily, s.today - 1 - back, s.today - 1 - back)
  {
    RolledSameOutside(g, s, RolledDay(s.today, back), now);
  }

  /** A night leaves today's date, the events, the checked days and all days out of its reach alone. */
  ghost predicate StaysInReach(s: State, s': State, lookback: nat) {
    && s'.today == s.today && s'.events == s.events && s'.cleared == s.cleared
    && SameOutside(s.daily, s'.daily, s.today - 1 - lookback, s.today - 1)
  }

  lemma NightHasRun(g: Grid, s: State, s': State, nows: seq<int>, ok: seq<bool>, lookback: nat)
    requires |nows| == |ok| == lookback + 1
    requires s' == Run(g, s, NightlySteps(s.today, lookback, nows, ok), lookback)
    ensures Later(s.clock, nows) ==> StaysInReach(s, s', lookback)
    ensures Inv(s, lookback) && Later(s.clock, nows) ==>
      var first := s.today - 1 - lookback;
      forall day :: first <= day < s.today && ok[day - first] ==> DayIsGroupBy(g, s', day)
  {
    if Later(s.clock, nows) {
      LateNight(g, s, s', nows, ok, lookback);
    }
  }

  lemma LateNight(g: Grid, s: State, s': State, nows: seq<int>, ok: seq<bool>, lookback: nat)
    requires |nows| == |ok| == lookback + 1 && Later(s.clock, nows)
    requires s' == Run(g, s, NightlySteps(s.today, lookback, nows, ok), lookback)
    ensures StaysInReach(s, s', lookback)
    ensures Inv(s, lookback) ==>
      var first := s.today - 1 - lookback;
      forall day :: first <= day < s.today && ok[day - first] ==> DayIsGroupBy(g, s', day)
  {
    NightStaysInReach(g, s, lookback, nows, ok, lookback);
    if Inv(s, lookback) {
      forall day | s.today - 1 - lookback <= day < s.today && ok[day - (s.today - 1 - lookback)]
        ensures DayIsGroupBy(g, s', day)
      {
        NightlyRunConverges(g, s, lookback, nows, ok, day, lookback);
      }
    }
  }

  /** The rows a backfill run writes never collide with recorded ones, however late it writes them. */
  lemma WritesNeverConflict(s: State, d: Days, day: int, rows: map<Key, Measures>, lookback: nat)
    requires Inv(s, lookback) && d in s.cleared && InDays(d, day)
    requires DatedOn(rows, day)
    ensures WriteAllowed(s, day, rows)
  {
    var kept := DeleteBackfillOf(s.daily, day);
    forall k | k in kept && k.date == day
      ensures k !in rows
    {
      assert !Recorded(s.daily, d);
    }
  }

  /** No rollup row lies on the days, and whatever a backfill run writes on one of them goes in. */
  ghost predicate Writable(s: State, d: Days) {
    && !Recorded(s.daily, d)
    && forall day, rows :: InDays(d, day) && DatedOn(rows, day) ==> WriteAllowed(s, day, rows)
  }

  lemma ClearedIsWritable(s: State, d: Days, lookback: nat)
    requires Inv(s, lookback) && d in s.cleared
    ensures Writable(s, d)
  {
    forall day, rows: map<Key, Measures> | InDays(d, day) && DatedOn(rows, day)
      ensures WriteAllowed(s, day, rows)
    {
      WritesNeverConflict(s, d, day, rows, lookback);
    }
  }

  lemma {:induction false} ClearedStays(g: Grid, s: State, d: Days, steps: seq<Step>, lookback: nat)
    requires d in s.cleared
    ensures d in Run(g, s, steps, lookback).cleared
    decreases |steps|
  {
    if steps != [] {
      ClearedStays(g, Apply(g, s, steps[0], lookback), d, steps[1..], lookback);
    }
  }

  /** Days that passed the check stay writable, whatever happens before they are written. */
  lemma ClearedForGood(g: Grid, s: State, d: Days, steps: seq<Step>, lookback: nat)
    requires Inv(s, lookback) && d in s.cleared && AllPrompt(g, s, steps, lookback)
    ensures Writable(Run(g, s, steps, lookback), d)
  {
    RunKeepsInv(g, s, steps, lookback);
    ClearedStays(g, s, d, steps, lookback);
    ClearedIsWritable(Run(g, s, steps, lookback), d, lookback);
  }

  /** Only the day's backfill rows change, and afterwards they are the rows written. */
  lemma WrittenDay(daily: Daily, day: int, rows: map<Key, Measures>, now: int)
    requires DatedOn(rows, day) && rows.Keys !! DeleteBackfillOf(daily, day).Keys
    ensures DayBackfilled(daily, WriteDay(daily, day, rows, now), day, rows, now)
  {
  }

  ghost predicate DayBackfilled(before: Daily, after: Daily, day: int, rows: map<Key, Measures>, now: int) {
    && (forall k :: k in after && after[k].source == Backfill && k.date == day <==> k in rows)
    && (forall k :: k in rows ==> k in after && after[k] == Stored(Backfill, rows[k], now))
    && (forall k :: k in before && !(before[k].source == Backfill && k.date == day) ==>
      k in after && after[k] == before[k])
    && (forall k :: k in after && !(after[k].source == Backfill && k.date == day) ==>
      k in before && before[k] == after[k])
  }

  /** Nothing but the table changes; it is the table with the day's backfill replaced, or it stays. */
  ghost predicate WriteOutcome(s: State, s': State, day: int, rows: map<Key, Measures>, now: int, written: bool) {
    && s' == s.(daily := s'.daily)
    && if written then DayBackfilled(s.daily, s'.daily, day, rows, now) else s'.daily == s.daily
  }

  lemma WriteOnChecked(s: State, day: int, rows: map<Key, Measures>, now: int, lookback: nat)
    ensures WriteOutcome(s, AfterWrite(s, day, rows, now), day, rows, now, WriteAllowed(s, day, rows))
    ensures Inv(s, lookback) ==> Inv(AfterWrite(s, day, rows, now), lookback)
    ensures Inv(s, lookback) ==> (WriteAllowed(s, day, rows) <==> Checked(s, day) && DatedOn(rows, day))
  {
    if WriteAllowed(s, day, rows) {
      WrittenDay(s.daily, day, rows, now);
    }
    if Inv(s, lookback) {
      StepKeepsInv(UsageEvents.IstDays(), s, Write(day, rows, now), lookback);
      if d :| d in s.cleared && InDays(d, day) && DatedOn(rows, day) {
        WritesNeverConflict(s, d, day, rows, lookback);
      }
    }
  }

  // ---------------------------------------------------------------------------------------
  // A nightly job that runs past midnight
  // ---------------------------------------------------------------------------------------

  function LateKey(tenant: int): Key { Key(-1, Dims(Some(tenant), None, None, None, None, None), 0) }

  function LateEvent(): Event {
    Row(-1, Usage(LateKey(1).dims, 0, "c", Some(200), Amounts(0.0, 0.0, 0.0, 0.0, 0.0, 0.0)))
  }

  /** One key per day: a grid small enough to follow by hand. */
  function UnitDays(): Grid { Grid(k => k, key => key) }

  function LateHistory(): seq<Step> {
    [NextDay(1), Check(Days(-1, -1)), Write(-1, map[LateKey(2) := Measures(1, 1, 0, LateEvent().data.amounts)], 1),
     RollUp(0, 0, 2)]
  }

  /**
   The nightly job of day 0 is still rolling day -1 when day 1 begins. Day -1 is then out of the
   new date's reach, so a backfill of it is accepted, and the late rollup puts its rows beside it.
   */
  lemma LateRollupMixesADay()
    ensures
      var s := State(0, 0, [LateEvent()], map[], {});
      Initial(s) && !NoMixedDay(Run(UnitDays(), s, LateHistory(), 0).daily)
  {
    var g, s := UnitDays(), State(0, 0, [LateEvent()], map[], {});
    var steps := LateHistory();
    var s1 := Apply(g, s, steps[0], 0);
    assert CheckPasses(s1, Days(-1, -1), 0);
    var s2 := Apply(g, s1, steps[1], 0);
    assert Days(-1, -1) in s2.cleared && InDays(Days(-1, -1), -1);
    assert WriteAllowed(s2, -1, steps[2].rows);
    var s3 := Apply(g, s2, steps[2], 0);
    LateRollupTable(g, s3.daily);
    LateRun(g, s, s1, s2, s3, Apply(g, s3, steps[3], 0));
  }

  lemma LateRollupTable(g: Grid, daily: Daily)
    requires DayOf(g, LateEvent()) == -1
    requires LateKey(1) !in daily && LateKey(2) in daily && daily[LateKey(2)].source == Backfill
    ensures !NoMixedDay(RollupTable(g, daily, [LateEvent()], -1, 2))
  {
    var groups := Aggregate(g, [LateEvent()], -1);
    assert KeyOf(g, [LateEvent()][0]) == LateKey(1);
    assert LateKey(1) in groups;
    var upserted := UpsertAll(daily, groups, groups.Keys, 2);
    assert LateKey(1) in upserted && !Stale(LateKey(1), upserted[LateKey(1)], -1, 2);
    assert LateKey(2) in upserted && upserted[LateKey(2)].source == Backfill;
    var r := RollupTable(g, daily, [LateEvent()], -1, 2);
    assert r[LateKey(1)].source != r[LateKey(2)].source;
  }

  /**
   Exactly when a rollup, late or not, leaves no day mixed: its day has no backfill rows, or every
   group of its events lands on one.
   */
  lemma RollUpMixesExactly(g: Grid, s: State, step: Step, lookback: nat)
    requires Inv(s, lookback) && step.RollUp? && RollUpRuns(s, step, lookback)
    ensures
      var day := RolledDay(step.runDate, step.back);
      NoMixedDay(Apply(g, s, step, lookback).daily) <==>
        NoBackfillOn(s.daily, day) || Aggregate(g, s.events, day).Keys <= s.daily.Keys
  {
    InvSeparatesSources(s, lookback);
    ApplyRollUp(g, s, step, lookback);
    RolledMixesExactly(g, s.daily, s.events, RolledDay(step.runDate, step.back), step.now);
  }

  lemma RolledMixesExactly(g: Grid, daily: Daily, events: seq<Event>, day: int, now: int)
    requires NoMixedDay(daily)
    ensures NoMixedDay(RollupTable(g, daily, events, day, now)) <==>
      NoBackfillOn(daily, day) || Aggregate(g, events, day).Keys <= daily.Keys
  {
    RollupTouchesItsDay(g, daily, events, day, now);
    if !NoBackfillOn(daily, day) {
      var k :| k in daily && k.date == day && daily[k].source == Backfill;
      RollupRowsAppear(g, daily, events, day, now);
      BackfillRowsStay(g, daily, events, day, now, k);
    }
  }

  lemma BackfillRowsStay(g: Grid, daily: Daily, events: seq<Event>, day: int, now: int, k: Key)
    requires k in daily && daily[k].source == Backfill
    ensures k in RollupTable(g, daily, events, day, now)
      && RollupTable(g, daily, events, day, now)[k].source == Backfill
  {
  }

  lemma LateRun(g: Grid, s: State, s1: State, s2: State, s3: State, s4: State)
    requires
      var steps := LateHistory();
      s1 == Apply(g, s, steps[0], 0) && s2 == Apply(g, s1, steps[1], 0) &&
      s3 == Apply(g, s2, steps[2], 0) && s4 == Apply(g, s3, steps[3], 0)
    ensures Run(g, s, LateHistory(), 0) == s4
  {
    var steps := LateHistory();
    FirstStep(g, s, steps[0], steps[1..], 0);
    FirstStep(g, s1, steps[1], steps[2..], 0);
    FirstStep(g, s2, steps[2], steps[3..], 0);
    FirstStep(g, s3, steps[3], [], 0);
    assert steps == [steps[0]] + steps[1..] && steps[1..] == [steps[1]] + steps[2..];
    assert steps[2..] == [steps[2]] + steps[3..] && steps[3..] == [steps[3]] + [];
  }

  // ---------------------------------------------------------------------------------------
  // The jobs
  // ---------------------------------------------------------------------------------------

  /** The database the jobs share: each job method is a sequence of the atomic steps above. */
  class UsageDatabase {
    const days: Grid := UsageEvents.IstDays()
    const lookback: nat
    var state: State

    constructor (lookback: nat, state: State)
      ensures this.lookback == lookback && this.state == state
    {
      this.lookback, this.state := lookback, state;
    }

    method RollupOneDay(runDate: int, back: nat, now: int)
      modifies this
      ensures state == Apply(days, old(state), RollUp(runDate, back, now), lookback)
    {
      if RollUpRuns(state, RollUp(runDate, back, now), lookback) {
        var daily := RollupDay(days, state.daily, state.events, RolledDay(runDate, back), now);
        state := state.(daily := daily, clock := now);
      }
    }

    /** The loop over the days, oldest first; ok says which of the transactions come through. */
    method RollupDays(nows: seq<int>, ok: seq<bool>) returns (failed: bool)
      requires |nows| == |ok| == lookback + 1
      modifies this
      ensures state == NightFrom(days, old(state), old(state).today, nows, ok, 0, lookback)
      ensures failed <==> false in ok
    {
      var today := state.today;
      ghost var night := NightFrom(days, state, today, nows, ok, 0, lookback);
      failed := false;
      for i := 0 to lookback + 1
        invariant failed <==> false in ok[..i]
        invariant NightFrom(days, state, today, nows, ok, i, lookback) == night
      {
        assert ok[..i + 1] == ok[..i] + [ok[i]];
        if ok[i] {
          RollupOneDay(today, lookback - i, nows[i]);
        } else {
          failed := true;
        }
      }
      assert ok[..|ok|] == ok;
    }

    /**
     consolidate: partition maintenance, which leaves daily_usage and the set of events alone, then one
     transaction a day. Any failure is reported at the end.
     */
    method Consolidate(maintained: bool, nows: seq<int>, ok: seq<bool>) returns (failed: bool)
      requires |nows| == |ok| == lookback + 1
      modifies this
      ensures state == Run(days, old(state), NightlySteps(old(state).today, lookback, nows, ok), lookback)
      ensures failed <==> !maintained || false in ok
      ensures Later(old(state).clock, nows) ==> StaysInReach(old(state), state, lookback)
      ensures old(Inv(state, lookback)) && Later(old(state).clock, nows) ==>
        var first := old(state).today - 1 - lookback;
        forall day :: first <= day < old(state).today && ok[day - first] ==> DayIsGroupBy(days, state, day)
    {
      ghost var night := Run(days, state, NightlySteps(state.today, lookback, nows, ok), lookback);
      WholeNight(days, state, nows, ok, lookback);
      NightHasRun(days, state, night, nows, ok, lookback);
      failed := RollupDays(nows, ok);
      failed := failed || !maintained;
    }

    /**
     check_days_not_recorded: false is the BackfillError. Days that pass stay free of rollup rows and
     writable through every later history of prompt steps.
     */
    method CheckDays(d: Days) returns (ok: bool)
      modifies this
      ensures ok <==>
        && d.first <= d.last < old(state).today - 1 - lookback
        && forall k :: k in old(state).daily && InDays(d, k.date) ==> old(state).daily[k].source == Backfill
      ensures state == if ok then old(state).(cleared := old(state).cleared + {d}) else old(state)
      ensures old(Inv(state, lookback)) ==> Inv(state, lookback)
      ensures ok && old(Inv(state, lookback)) ==>
        forall steps :: AllPrompt(days, state, steps, lookback) ==> Writable(Run(days, state, steps, lookback), d)
    {
      ghost var start := state;
      ok := CheckPasses(state, d, lookback);
      if ok {
        state := state.(cleared := state.cleared + {d});
      }
      if Inv(start, lookback) {
        StepKeepsInv(days, start, Check(d), lookback);
        if ok {
          forall steps | AllPrompt(days, state, steps, lookback)
            ensures Writable(Run(days, state, steps, lookback), d)
          {
            ClearedForGood(days, state, d, steps, lookback);
          }
        }
      }
    }

    /**
     write_day: the day's backfill rows are deleted and the new ones inserted, or, where a key is taken,
     nothing happens. On a day that was checked no key is ever taken.
     */
    method WriteOneDay(day: int, rows: map<Key, Measures>, now: int) returns (written: bool)
      modifies this
      ensures written <==> WriteAllowed(old(state), day, rows)
      ensures WriteOutcome(old(state), state, day, rows, now, written)
      ensures old(Inv(state, lookback)) ==> Inv(state, lookback)
      ensures old(Inv(state, lookback)) ==> (written <==> Checked(old(state), day) && DatedOn(rows, day))
    {
      WriteOnChecked(state, day, rows, now, lookback);
      written := WriteAllowed(state, day, rows);
      if written {
        state := state.(daily := WriteDay(state.daily, day, rows, now));
      }
    }

    method UndoBackfill()
      modifies this
      ensures state == Apply(days, old(state), Undo, lookback)
      ensures forall k :: k in state.daily <==> k in old(state).daily && old(state).daily[k].source == Rollup
      ensures forall k :: k in state.daily ==> state.daily[k] == old(state).daily[k]
      ensures state.(daily := old(state).daily) == old(state)
    {
      state := state.(daily := Only(state.daily, Rollup));
    }
  }
}
