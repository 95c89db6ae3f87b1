/**
 The rows of one backfilled day (services/pyjob/backfill/engine.py, build_day_rows): Prometheus
 samples are accumulated per institution, application and service, rounded, and turned into
 daily_usage rows. Decimals are reals; unknown applications and services become NULL before
 grouping.
 */
module BackfillRows {
  import opened Options
  import opened Decimals
  import opened DailyRollup
  import UsageLedger

  /** One series of a query result, with its labels (None when absent). */
  datatype Sample = Sample(kind: string, tenant: Option<string>, application: Option<string>,
                           service: Option<string>, tokenType: Option<string>, value: real)

  datatype Rates = Rates(input: real, output: real)

  datatype Lookups = Lookups(
    applications: set<int>,
    singleKeys: map<int, int>,
    tenantTiers: map<int, Option<string>>,
    tiers: set<string>,
    services: map<string, Rates>,
    llmType: Option<int>)

  datatype Group = Group(tenant: int, application: Option<int>, service: Option<string>)

  datatype DayRow = DayRow(key: Key, measures: Measures)

  // ---------------------------------------------------------------------------------------
  // Labels and rounding
  // ---------------------------------------------------------------------------------------

  /** A label that is a positive integer. */
  function LabelInt(text: Option<string>): Option<int> {
    if text.Some? && IsDigits(text.value) && ParseDigits(text.value) > 0 then Some(ParseDigits(text.value)) else None
  }

  /** Decimal.quantize with ROUND_HALF_UP: halves go away from zero. */
  function Whole(x: real): int {
    if x >= 0.0 then (x + 0.5).Floor else -((-x + 0.5).Floor)
  }

  lemma WholeIsNearest(x: real)
    ensures -0.5 <= Whole(x) as real - x <= 0.5
    ensures x >= 0.0 ==> -0.5 < Whole(x) as real - x
    ensures x < 0.0 ==> Whole(x) as real - x < 0.5
  {
  }

  /** The numerals of the positive integers are the labels that count, and each stands for its number. */
  lemma LabelExactly(n: nat)
    ensures LabelInt(Some(Decimal(n))) == if n > 0 then Some(n) else None
  {
    ParseDecimal(n);
  }

  lemma NoOtherLabel(text: Option<string>)
    ensures LabelInt(text).Some? ==> text.Some? && IsDigits(text.value) && LabelInt(text).value > 0
    ensures text.Some? && IsDigits(text.value) ==> LabelInt(text) in {None, Some(ParseDigits(text.value))}
  {
  }

  function GroupOf(s: Sample, lookups: Lookups): Option<Group> {
    var tenant := LabelInt(s.tenant);
    if tenant.None? then None
    else
      var application := LabelInt(s.application);
      var known := if application.Some? && application.value in lookups.applications then application else None;
      var service :=
        if s.service.Some? && s.service.value != "" && s.service.value in lookups.services then s.service else None;
      Some(Group(tenant.value, known, service))
  }

  /**
   A sample without a numeric institution belongs to no group. An application that is not a known number,
   and a service that is absent, empty or unknown, are NULL.
   */
  lemma GroupExactly(s: Sample, lookups: Lookups)
    ensures GroupOf(s, lookups).None? <==> LabelInt(s.tenant).None?
    ensures GroupOf(s, lookups).Some? ==>
      var g, application := GroupOf(s, lookups).value, LabelInt(s.application);
      && Some(g.tenant) == LabelInt(s.tenant)
      && (application.Some? && application.value in lookups.applications ==> g.application == application)
      && (application.None? || application.value !in lookups.applications ==> g.application == None)
      && (s.service.Some? && s.service.value != "" && s.service.value in lookups.services ==> g.service == s.service)
      && (s.service in {None, Some("")} || s.service.value !in lookups.services ==> g.service == None)
  {
  }

  /** The counter a sample adds to: its token type, or the query it came from. */
  function CounterOf(s: Sample): Option<string> {
    if s.kind == "tokens" then s.tokenType else Some(s.kind)
  }

  // ---------------------------------------------------------------------------------------
  // What the accumulation computes
  // ---------------------------------------------------------------------------------------

  function Accepted(s: Sample, lookups: Lookups, group: Group, counter: Option<string>): real {
    if GroupOf(s, lookups) == Some(group) && CounterOf(s) == counter then s.value else 0.0
  }

  function Sum(samples: seq<Sample>, lookups: Lookups, group: Group, counter: Option<string>): real {
    if samples == [] then 0.0
    else
      Sum(samples[..|samples| - 1], lookups, group, counter) +
      Accepted(samples[|samples| - 1], lookups, group, counter)
  }

  /** The groups in order of first appearance: the order of Python's dict. */
  function Groups(samples: seq<Sample>, lookups: Lookups): seq<Group> {
    if samples == [] then []
    else
      var earlier := Groups(samples[..|samples| - 1], lookups);
      var g := GroupOf(samples[|samples| - 1], lookups);
      if g.None? || g.value in earlier then earlier else earlier + [g.value]
  }

  const REQUESTS := Some("requests")
  const SUCCESSFUL := Some("successful")
  const PROMPT := Some("prompt")
  const COMPLETION := Some("completion")

  datatype Counts = Counts(requests: int, successful: int, prompt: int, completion: int)

  function CountsOf(samples: seq<Sample>, lookups: Lookups, group: Group): Counts {
    Counts(Whole(Sum(samples, lookups, group, REQUESTS)), Whole(Sum(samples, lookups, group, SUCCESSFUL)),
           Whole(Sum(samples, lookups, group, PROMPT)), Whole(Sum(samples, lookups, group, COMPLETION)))
  }

  /** The four counters by name: two of the queries, and the two token types of the third. */
  lemma CountersExactly(samples: seq<Sample>, lookups: Lookups, group: Group)
    ensures
      var c := CountsOf(samples, lookups, group);
      && c.requests == Whole(Sum(samples, lookups, group, Some("requests")))
      && c.successful == Whole(Sum(samples, lookups, group, Some("successful")))
      && c.prompt == Whole(Sum(samples, lookups, group, Some("prompt")))
      && c.completion == Whole(Sum(samples, lookups, group, Some("completion")))
    ensures forall s: Sample :: s.kind in {"requests", "successful"} ==> CounterOf(s) == Some(s.kind)
    ensures forall s: Sample :: s.kind == "tokens" ==> CounterOf(s) == s.tokenType
  {
  }

  /** What one more sample adds: its value, to its own group's counter of its name. */
  lemma SumStep(samples: seq<Sample>, s: Sample, lookups: Lookups, group: Group, counter: Option<string>)
    ensures Sum(samples + [s], lookups, group, counter) == Sum(samples, lookups, group, counter) +
      if GroupOf(s, lookups) == Some(group) && CounterOf(s) == counter then s.value else 0.0
    ensures Sum([], lookups, group, counter) == 0.0
  {
    assert (samples + [s])[..|samples|] == samples;
  }

  predicate Skipped(c: Counts) { c.requests == 0 && c.prompt + c.completion == 0 }

  function DimsOf(lookups: Lookups, group: Group): Dims {
    var tier := if group.tenant in lookups.tenantTiers then lookups.tenantTiers[group.tenant] else None;
    Dims(Some(group.tenant), group.application,
         if group.application.Some? && group.application.value in lookups.singleKeys
           then Some(lookups.singleKeys[group.application.value]) else None,
         if tier.Some? && tier.value in lookups.tiers then tier else None,
         group.service, lookups.llmType)
  }

  /** The institution's tier and the application's only key, where they are known; the service; the type of LLMs. */
  lemma DimsExactly(lookups: Lookups, group: Group)
    ensures
      var d, application := DimsOf(lookups, group), group.application;
      && d.tenant == Some(group.tenant) && d.application == application
      && d.service == group.service && d.inferenceType == lookups.llmType
      && (application.Some? && application.value in lookups.singleKeys ==>
            d.apiKey == Some(lookups.singleKeys[application.value]))
      && (application.None? || application.value !in lookups.singleKeys ==> d.apiKey == None)
      && (d.tier.Some? <==>
            && group.tenant in lookups.tenantTiers && lookups.tenantTiers[group.tenant].Some?
            && lookups.tenantTiers[group.tenant].value in lookups.tiers)
      && (d.tier.Some? ==> d.tier == lookups.tenantTiers[group.tenant])
  {
  }

  function RowOf(day: int, month: int, lookups: Lookups, group: Group, c: Counts): DayRow {
    var failed := if c.requests - c.successful > 0 then c.requests - c.successful else 0;
    var priced := group.service.Some? && group.service.value in lookups.services;
    var rates := if priced then lookups.services[group.service.value] else Rates(0.0, 0.0);
    DayRow(Key(day, DimsOf(lookups, group), month),
           Measures(c.requests, c.requests - failed, failed,
                    Amounts((c.prompt + c.completion) as real, 0.0, c.completion as real,
                            c.prompt as real * rates.input, 0.0, c.completion as real * rates.output)))
  }

  function RowsOf(day: int, month: int, lookups: Lookups, samples: seq<Sample>, groups: seq<Group>): seq<DayRow> {
    if groups == [] then []
    else
      var last := groups[|groups| - 1];
      var c := CountsOf(samples, lookups, last);
      RowsOf(day, month, lookups, samples, groups[..|groups| - 1]) +
      if Skipped(c) then [] else [RowOf(day, month, lookups, last, c)]
  }

  // ---------------------------------------------------------------------------------------
  // build_day_rows
  // ---------------------------------------------------------------------------------------

  type Totals = map<Group, map<Option<string>, real>>

  function Get(t: map<Option<string>, real>, counter: Option<string>): real {
    if counter in t then t[counter] else 0.0
  }

  ghost predicate Accumulated(samples: seq<Sample>, lookups: Lookups, order: seq<Group>, totals: Totals) {
    && order == Groups(samples, lookups)
    && (forall g :: g in totals <==> g in order)
    && (forall g, c :: g in totals ==> Get(totals[g], c) == Sum(samples, lookups, g, c))
  }

  method Accumulate(samples: seq<Sample>, lookups: Lookups) returns (order: seq<Group>, totals: Totals)
    ensures Accumulated(samples, lookups, order, totals)
  {
    order, totals := [], map[];
    for i := 0 to |samples|
      invariant Accumulated(samples[..i], lookups, order, totals)
    {
      var s := samples[i];
      var g := GroupOf(s, lookups);
      ghost var before, beforeOrder := totals, order;
      if g.Some? {
        if g.value !in totals {
          order, totals := order + [g.value], totals[g.value := map[]];
        }
        var t, c := totals[g.value], CounterOf(s);
        totals := totals[g.value := t[c := Get(t, c) + s.value]];
      }
      AccumulateStep(samples, lookups, i, beforeOrder, before, order, totals);
    }
    assert samples[..|samples|] == samples;
  }

  lemma {:induction false} UnseenGroup(samples: seq<Sample>, lookups: Lookups, g: Group, c: Option<string>)
    requires g !in Groups(samples, lookups)
    ensures Sum(samples, lookups, g, c) == 0.0
  {
    if samples != [] {
      UnseenGroup(samples[..|samples| - 1], lookups, g, c);
    }
  }

  lemma AccumulateStep(samples: seq<Sample>, lookups: Lookups, i: nat, order: seq<Group>, totals: Totals,
                       order': seq<Group>, totals': Totals)
    requires i < |samples| && Accumulated(samples[..i], lookups, order, totals)
    requires
      var s := samples[i];
      var g := GroupOf(s, lookups);
      if g.None? then order' == order && totals' == totals
      else
        var t := if g.value in totals then totals[g.value] else map[];
        && order' == (if g.value in totals then order else order + [g.value])
        && totals' == totals[g.value := t[CounterOf(s) := Get(t, CounterOf(s)) + s.value]]
    ensures Accumulated(samples[..i + 1], lookups, order', totals')
  {
    var done := samples[..i + 1];
    assert done[..|done| - 1] == samples[..i] && done[|done| - 1] == samples[i];
    forall g, c | g in totals'
      ensures Get(totals'[g], c) == Sum(done, lookups, g, c)
    {
      if g !in totals {
        UnseenGroup(samples[..i], lookups, g, c);
      }
    }
  }

  /** One row per group that has any requests or tokens, in the groups' order. */
  method BuildDayRows(day: int, month: int, samples: seq<Sample>, lookups: Lookups) returns (rows: seq<DayRow>)
    ensures rows == DayRows(day, month, lookups, samples)
  {
    var order, totals := Accumulate(samples, lookups);
    rows := [];
    for i := 0 to |order|
      invariant rows == RowsOf(day, month, lookups, samples, order[..i])
    {
      var group := order[i];
      assert group in order;
      var t := totals[group];
      var c := Counts(Whole(Get(t, REQUESTS)), Whole(Get(t, SUCCESSFUL)), Whole(Get(t, PROMPT)),
                      Whole(Get(t, COMPLETION)));
      assert c == CountsOf(samples, lookups, group);
      assert order[..i + 1][..i] == order[..i];
      if !Skipped(c) {
        rows := rows + [RowOf(day, month, lookups, group, c)];
      }
    }
    assert order[..|order|] == order;
  }

  // ---------------------------------------------------------------------------------------
  // The rows fit daily_usage
  // ---------------------------------------------------------------------------------------

  predicate Distinct<T(==)>(s: seq<T>) { forall i, j :: 0 <= i < j < |s| ==> s[i] != s[j] }

  lemma {:induction false} GroupsDistinct(samples: seq<Sample>, lookups: Lookups)
    ensures Distinct(Groups(samples, lookups))
  {
    if samples != [] {
      GroupsDistinct(samples[..|samples| - 1], lookups);
    }
  }

  /** A group exists exactly when some sample with a numeric tenant maps to it. */
  lemma {:induction false} GroupsExactly(samples: seq<Sample>, lookups: Lookups, g: Group)
    ensures g in Groups(samples, lookups) <==> exists i :: 0 <= i < |samples| && GroupOf(samples[i], lookups) == Some(g)
  {
    if samples != [] {
      var init, n := samples[..|samples| - 1], |samples| - 1;
      GroupsExactly(init, lookups, g);
      if i :| 0 <= i < |samples| && GroupOf(samples[i], lookups) == Some(g) && i < n {
        assert init[i] == samples[i];
      }
      if i :| 0 <= i < |init| && GroupOf(init[i], lookups) == Some(g) {
        assert samples[i] == init[i];
      }
    }
  }

  /** Every row comes from one of the groups, and groups that differ get keys that differ. */
  lemma {:induction false} RowFromGroup(day: int, month: int, lookups: Lookups, samples: seq<Sample>,
                                        groups: seq<Group>, i: nat) returns (j: nat)
    requires i < |RowsOf(day, month, lookups, samples, groups)|
    ensures j < |groups| && !Skipped(CountsOf(samples, lookups, groups[j]))
    ensures RowsOf(day, month, lookups, samples, groups)[i]
         == RowOf(day, month, lookups, groups[j], CountsOf(samples, lookups, groups[j]))
  {
    var earlier := groups[..|groups| - 1];
    if i < |RowsOf(day, month, lookups, samples, earlier)| {
      j := RowFromGroup(day, month, lookups, samples, earlier, i);
    } else {
      j := |groups| - 1;
    }
  }

  predicate KeysDistinct(rows: seq<DayRow>) { forall i, j :: 0 <= i < j < |rows| ==> rows[i].key != rows[j].key }

  /** The unique dimension key is never violated within a day. */
  lemma {:induction false} RowKeysDistinct(day: int, month: int, lookups: Lookups, samples: seq<Sample>,
                                           groups: seq<Group>)
    requires Distinct(groups)
    ensures KeysDistinct(RowsOf(day, month, lookups, samples, groups))
  {
    if groups != [] {
      var earlier, last := groups[..|groups| - 1], groups[|groups| - 1];
      var rows := RowsOf(day, month, lookups, samples, earlier);
      RowKeysDistinct(day, month, lookups, samples, earlier);
      forall i | 0 <= i < |rows|
        ensures rows[i].key != Key(day, DimsOf(lookups, last), month)
      {
        var j := RowFromGroup(day, month, lookups, samples, earlier, i);
        assert groups[j] != last;
      }
    }
  }

  /** What one row may say about its group's counters. */
  predicate Balanced(row: DayRow, day: int, month: int, lookups: Lookups, group: Group, c: Counts) {
    var m := row.measures;
    && row.key == Key(day, DimsOf(lookups, group), month)
    && m.requests == c.requests && m.success + m.failed == m.requests && 0 <= m.failed
    && m.success == (if c.successful < c.requests then c.successful else c.requests)
    && m.amounts.outputUnits == c.completion as real
    && m.amounts.totalUnits == c.prompt as real + c.completion as real
    && m.amounts.cachedUnits == 0.0 && m.amounts.cachedCost == 0.0
    && if group.service.Some? && group.service.value in lookups.services then
         var rates := lookups.services[group.service.value];
         && m.amounts.inputCost == c.prompt as real * rates.input
         && m.amounts.outputCost == c.completion as real * rates.output
       else m.amounts.inputCost == 0.0 && m.amounts.outputCost == 0.0
  }

  lemma RowOfBalances(day: int, month: int, lookups: Lookups, group: Group, c: Counts)
    ensures Balanced(RowOf(day, month, lookups, group, c), day, month, lookups, group, c)
  {
    assert (c.prompt + c.completion) as real == c.prompt as real + c.completion as real;
  }

  /** Each row balances: successes and failures make the requests, prompt and output tokens the units. */
  lemma RowBalances(day: int, month: int, lookups: Lookups, samples: seq<Sample>, i: nat) returns (group: Group)
    requires i < |RowsOf(day, month, lookups, samples, Groups(samples, lookups))|
    ensures group in Groups(samples, lookups)
    ensures Balanced(RowsOf(day, month, lookups, samples, Groups(samples, lookups))[i],
                     day, month, lookups, group, CountsOf(samples, lookups, group))
  {
    var j := RowFromGroup(day, month, lookups, samples, Groups(samples, lookups), i);
    group := Groups(samples, lookups)[j];
    RowOfBalances(day, month, lookups, group, CountsOf(samples, lookups, group));
  }

  /** A group has its row among the day's exactly when it has requests or tokens. */
  lemma {:induction false} RowExactly(day: int, month: int, lookups: Lookups, samples: seq<Sample>,
                                      groups: seq<Group>, group: Group)
    requires Distinct(groups) && group in groups
    ensures
      var c := CountsOf(samples, lookups, group);
      (exists i :: 0 <= i < |RowsOf(day, month, lookups, samples, groups)|
                   && RowsOf(day, month, lookups, samples, groups)[i].key == Key(day, DimsOf(lookups, group), month))
      <==> c.requests != 0 || c.prompt + c.completion != 0
  {
    var rows := RowsOf(day, month, lookups, samples, groups);
    var c := CountsOf(samples, lookups, group);
    if i :| 0 <= i < |rows| && rows[i].key == Key(day, DimsOf(lookups, group), month) {
      var j := RowFromGroup(day, month, lookups, samples, groups, i);
      assert groups[j] == group;
    }
    if c.requests != 0 || c.prompt + c.completion != 0 {
      var i := GroupHasRow(day, month, lookups, samples, groups, group);
      assert rows[i].key == Key(day, DimsOf(lookups, group), month);
    }
  }

  lemma {:induction false} GroupHasRow(day: int, month: int, lookups: Lookups, samples: seq<Sample>,
                                       groups: seq<Group>, group: Group) returns (i: nat)
    requires group in groups && !Skipped(CountsOf(samples, lookups, group))
    ensures i < |RowsOf(day, month, lookups, samples, groups)|
    ensures RowsOf(day, month, lookups, samples, groups)[i]
         == RowOf(day, month, lookups, group, CountsOf(samples, lookups, group))
  {
    var n := |groups| - 1;
    if group == groups[n] {
      i := |RowsOf(day, month, lookups, samples, groups[..n])|;
    } else {
      i := GroupHasRow(day, month, lookups, samples, groups[..n], group);
    }
  }

  /** What a write of the day inserts into daily_usage. */
  function AsTable(rows: seq<DayRow>): map<Key, Measures> {
    if rows == [] then map[] else AsTable(rows[..|rows| - 1])[rows[|rows| - 1].key := rows[|rows| - 1].measures]
  }

  lemma {:induction false} AsTableKeepsAllRows(rows: seq<DayRow>)
    requires KeysDistinct(rows)
    ensures forall i :: 0 <= i < |rows| ==>
      rows[i].key in AsTable(rows) && AsTable(rows)[rows[i].key] == rows[i].measures
    ensures forall k :: k in AsTable(rows) ==> exists i :: 0 <= i < |rows| && rows[i].key == k
  {
    if rows != [] {
      AsTableKeepsAllRows(rows[..|rows| - 1]);
    }
  }

  /** The rows of a day, as BuildDayRows returns them. */
  function DayRows(day: int, month: int, lookups: Lookups, samples: seq<Sample>): seq<DayRow> {
    RowsOf(day, month, lookups, samples, Groups(samples, lookups))
  }

  /** No two of them share a dimension key, so the insert keeps them all. */
  lemma DayRowsFitTheTable(day: int, month: int, lookups: Lookups, samples: seq<Sample>)
    ensures
      var rows := DayRows(day, month, lookups, samples);
      && KeysDistinct(rows)
      && (forall i :: 0 <= i < |rows| ==>
        rows[i].key in AsTable(rows) && AsTable(rows)[rows[i].key] == rows[i].measures)
      && UsageLedger.DatedOn(AsTable(rows), day)
      && |AsTable(rows)| == |rows|
  {
    var groups, rows := Groups(samples, lookups), DayRows(day, month, lookups, samples);
    GroupsDistinct(samples, lookups);
    RowKeysDistinct(day, month, lookups, samples, groups);
    AsTableKeepsAllRows(rows);
    AsTableSize(rows);
    forall i | 0 <= i < |rows|
      ensures rows[i].key.date == day
    {
      var j := RowFromGroup(day, month, lookups, samples, groups, i);
    }
  }

  lemma {:induction false} AsTableSize(rows: seq<DayRow>)
    requires KeysDistinct(rows)
    ensures |AsTable(rows)| == |rows|
  {
    if rows != [] {
      var init, last := rows[..|rows| - 1], rows[|rows| - 1];
      AsTableSize(init);
      AsTableKeepsAllRows(init);
      assert last.key !in AsTable(init);
    }
  }

  /**
   A backfilled day: on a day whose check passed, however long ago, the rows built from its samples are
   written without a conflict, and they are then the day's only backfill rows.
   */
  lemma DayRowsAreWritten(s: UsageLedger.State, d: UsageLedger.Days, day: int, month: int, lookups: Lookups,
                          samples: seq<Sample>, now: int, lookback: nat)
    requires UsageLedger.Inv(s, lookback) && d in s.cleared && UsageLedger.InDays(d, day)
    ensures
      var rows := DayRows(day, month, lookups, samples);
      var written := UsageLedger.WriteDay(s.daily, day, AsTable(rows), now);
      && UsageLedger.WriteAllowed(s, day, AsTable(rows))
      && (forall i :: 0 <= i < |rows| ==>
        rows[i].key in written && written[rows[i].key] == Stored(Backfill, rows[i].measures, now))
      && (forall k :: k in written && k.date == day ==> k in AsTable(rows))
      && (forall k :: k in s.daily && k.date != day ==> k in written && written[k] == s.daily[k])
  {
    var rows := DayRows(day, month, lookups, samples);
    DayRowsFitTheTable(day, month, lookups, samples);
    UsageLedger.WritesNeverConflict(s, d, day, AsTable(rows), lookback);
    WrittenDay(s, d, day, AsTable(rows), now, lookback);
  }

  lemma WrittenDay(s: UsageLedger.State, d: UsageLedger.Days, day: int, rows: map<Key, Measures>, now: int,
                   lookback: nat)
    requires UsageLedger.Inv(s, lookback) && d in s.cleared && UsageLedger.InDays(d, day)
    requires UsageLedger.DatedOn(rows, day)
    ensures
      var written := UsageLedger.WriteDay(s.daily, day, rows, now);
      && (forall k :: k in rows ==> k in written && written[k] == Stored(Backfill, rows[k], now))
      && (forall k :: k in written && k.date == day ==> k in rows)
      && (forall k :: k in s.daily && k.date != day ==> k in written && written[k] == s.daily[k])
  {
    assert !UsageLedger.Recorded(s.daily, d);
  }

  // ---------------------------------------------------------------------------------------
  // Totals survive grouping and rounding
  // ---------------------------------------------------------------------------------------

  /** Everything the accepted samples add to a counter. */
  function AcceptedTotal(samples: seq<Sample>, lookups: Lookups, counter: Option<string>): real {
    if samples == [] then 0.0
    else
      var last := samples[|samples| - 1];
      AcceptedTotal(samples[..|samples| - 1], lookups, counter) +
      if GroupOf(last, lookups).Some? && CounterOf(last) == counter then last.value else 0.0
  }

  function GroupTotal(groups: seq<Group>, samples: seq<Sample>, lookups: Lookups, counter: Option<string>): real {
    if groups == [] then 0.0
    else
      GroupTotal(groups[..|groups| - 1], samples, lookups, counter) +
      Sum(samples, lookups, groups[|groups| - 1], counter)
  }

  lemma {:induction false} GroupTotalStep(groups: seq<Group>, samples: seq<Sample>, lookups: Lookups,
                                          counter: Option<string>)
    requires samples != [] && Distinct(groups)
    ensures
      var last := samples[|samples| - 1];
      var g := GroupOf(last, lookups);
      GroupTotal(groups, samples, lookups, counter)
        == GroupTotal(groups, samples[..|samples| - 1], lookups, counter) +
           if g.Some? && g.value in groups && CounterOf(last) == counter then last.value else 0.0
  {
    if groups != [] {
      var earlier := groups[..|groups| - 1];
      GroupTotalStep(earlier, samples, lookups, counter);
      assert groups == earlier + [groups[|groups| - 1]];
      assert groups[|groups| - 1] !in earlier;
    }
  }

  lemma {:induction false} GroupingConserves(samples: seq<Sample>, lookups: Lookups, counter: Option<string>)
    ensures GroupTotal(Groups(samples, lookups), samples, lookups, counter) == AcceptedTotal(samples, lookups, counter)
  {
    if samples != [] {
      var init, last := samples[..|samples| - 1], samples[|samples| - 1];
      GroupingConserves(init, lookups, counter);
      GroupsDistinct(samples, lookups);
      GroupTotalStep(Groups(samples, lookups), samples, lookups, counter);
      var g := GroupOf(last, lookups);
      if g.Some? && g.value !in Groups(init, lookups) {
        UnseenGroup(init, lookups, g.value, counter);
        assert Groups(samples, lookups)[..|Groups(init, lookups)|] == Groups(init, lookups);
      }
    }
  }

  function RequestTotal(rows: seq<DayRow>): int {
    if rows == [] then 0 else RequestTotal(rows[..|rows| - 1]) + rows[|rows| - 1].measures.requests
  }

  function UnitTotal(rows: seq<DayRow>): real {
    if rows == [] then 0.0 else UnitTotal(rows[..|rows| - 1]) + rows[|rows| - 1].measures.amounts.totalUnits
  }

  lemma TotalsAppend(rows: seq<DayRow>, row: DayRow)
    ensures RequestTotal(rows + [row]) == RequestTotal(rows) + row.measures.requests
    ensures UnitTotal(rows + [row]) == UnitTotal(rows) + row.measures.amounts.totalUnits
  {
    assert (rows + [row])[..|rows|] == rows;
  }

  lemma {:induction false} RoundingBound(day: int, month: int, lookups: Lookups, samples: seq<Sample>,
                                         groups: seq<Group>)
    ensures
      var rows := RowsOf(day, month, lookups, samples, groups);
      var half := |groups| as real / 2.0;
      && -half <= RequestTotal(rows) as real - GroupTotal(groups, samples, lookups, REQUESTS) <= half
      && -2.0 * half
         <= UnitTotal(rows)
            - (GroupTotal(groups, samples, lookups, PROMPT) + GroupTotal(groups, samples, lookups, COMPLETION))
         <= 2.0 * half
  {
    if groups != [] {
      var earlier, last := groups[..|groups| - 1], groups[|groups| - 1];
      RoundingBound(day, month, lookups, samples, earlier);
      WholeIsNearest(Sum(samples, lookups, last, REQUESTS));
      WholeIsNearest(Sum(samples, lookups, last, PROMPT));
      WholeIsNearest(Sum(samples, lookups, last, COMPLETION));
      var c := CountsOf(samples, lookups, last);
      var rows := RowsOf(day, month, lookups, samples, earlier);
      TotalsAppend(rows, RowOf(day, month, lookups, last, c));
      assert rows + [] == rows;
    }
  }

  /**
   Over the whole day, the emitted requests and tokens are within half a unit per group and
   counter of what the accepted samples add up to; skipped groups included, whatever the signs.
   */
  lemma DayTotalsSurvive(day: int, month: int, lookups: Lookups, samples: seq<Sample>)
    ensures
      var groups := Groups(samples, lookups);
      var rows := RowsOf(day, month, lookups, samples, groups);
      var half := |groups| as real / 2.0;
      var tokens := AcceptedTotal(samples, lookups, PROMPT) + AcceptedTotal(samples, lookups, COMPLETION);
      && -half <= RequestTotal(rows) as real - AcceptedTotal(samples, lookups, REQUESTS) <= half
      && -2.0 * half <= UnitTotal(rows) - tokens <= 2.0 * half
  {
    RoundingBound(day, month, lookups, samples, Groups(samples, lookups));
    GroupingConserves(samples, lookups, REQUESTS);
    GroupingConserves(samples, lookups, PROMPT);
    GroupingConserves(samples, lookups, COMPLETION);
  }
}
