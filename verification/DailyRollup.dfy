/**
 The daily_usage rollup (services/pyjob/jobs/daily_usage_consolidation.py): one closed IST day of
 usage_events aggregated per dimension key, upserted, and the rows of the day that the
 transaction did not write deleted.

 daily_usage is a map from its unique dimension key; NULL is None, and None equals None, as the
 key's NULLS NOT DISTINCT and SQL's GROUP BY have it.
 */
module DailyRollup {
  import opened Options
  import opened PartitionedTable
  import opened Sequences
  import UsageEvents

  datatype Dims = Dims(
    tenant: Option<int>, application: Option<int>, apiKey: Option<int>,
    tier: Option<string>, service: Option<string>, inferenceType: Option<int>)

  datatype Amounts = Amounts(
    totalUnits: real, cachedUnits: real, outputUnits: real,
    inputCost: real, cachedCost: real, outputCost: real)

  /** month is the UTC month of the event's instant, which decides its billing_month. */
  datatype Usage = Usage(dims: Dims, month: int, correlation: string, status: Option<int>, amounts: Amounts)

  type Event = Row<Usage>

  datatype Key = Key(date: int, dims: Dims, month: int)

  datatype Measures = Measures(requests: int, success: int, failed: int, amounts: Amounts)

  datatype Source = Rollup | Backfill

  datatype Stored = Stored(source: Source, measures: Measures, updatedAt: int)

  type Daily = map<Key, Stored>

  /** The results hold for every grid g of days; the job uses UsageEvents.IstDays(). */
  function DayOf(g: Grid, e: Event): int { SlotOf(g, e.key) }

  function KeyOf(g: Grid, e: Event): Key { Key(DayOf(g, e), e.data.dims, e.data.month) }

  // ---------------------------------------------------------------------------------------
  // The aggregate query
  // ---------------------------------------------------------------------------------------

  datatype Column = TotalUnits | CachedUnits | OutputUnits | InputCost | CachedCost | OutputCost

  function Cell(a: Amounts, c: Column): real {
    match c
    case TotalUnits => a.totalUnits
    case CachedUnits => a.cachedUnits
    case OutputUnits => a.outputUnits
    case InputCost => a.inputCost
    case CachedCost => a.cachedCost
    case OutputCost => a.outputCost
  }

  /** SQL's status_code >= n, or status_code IS NOT NULL. */
  predicate StatusFrom(e: Event, atLeast: Option<int>) {
    e.data.status.Some? && (atLeast.Some? ==> e.data.status.value >= atLeast.value)
  }

  /** A row with a status and no units: written once per request. */
  predicate RequestRow(e: Event, atLeast: Option<int>) { StatusFrom(e, atLeast) && e.data.amounts.totalUnits == 0.0 }

  /** A row from before request rows existed: stands in for its request, possibly with others. */
  predicate LegacyRow(e: Event, atLeast: Option<int>) { StatusFrom(e, atLeast) && e.data.amounts.totalUnits > 0.0 }

  const FAILED: Option<int> := Some(400)

  const ANY_STATUS: Option<int> := None

  function RequestRows(g: Grid, events: seq<Event>, k: Key, atLeast: Option<int>): nat {
    if events == [] then 0
    else
      (if KeyOf(g, events[0]) == k && RequestRow(events[0], atLeast) then 1 else 0)
        + RequestRows(g, events[1..], k, atLeast)
  }

  function Correlations(g: Grid, events: seq<Event>, k: Key, atLeast: Option<int>): set<string> {
    set i | 0 <= i < |events| && KeyOf(g, events[i]) == k && LegacyRow(events[i], atLeast) :: events[i].data.correlation
  }

  function Requests(g: Grid, events: seq<Event>, k: Key, atLeast: Option<int>): nat {
    RequestRows(g, events, k, atLeast) + |Correlations(g, events, k, atLeast)|
  }

  function Sum(g: Grid, events: seq<Event>, k: Key, c: Column): real {
    if events == [] then 0.0
    else (if KeyOf(g, events[0]) == k then Cell(events[0].data.amounts, c) else 0.0) + Sum(g, events[1..], k, c)
  }

  function Sums(g: Grid, events: seq<Event>, k: Key): Amounts {
    Amounts(Sum(g, events, k, TotalUnits), Sum(g, events, k, CachedUnits), Sum(g, events, k, OutputUnits),
            Sum(g, events, k, InputCost), Sum(g, events, k, CachedCost), Sum(g, events, k, OutputCost))
  }

  function GroupMeasures(g: Grid, events: seq<Event>, k: Key): Measures {
    var requests, failed := Requests(g, events, k, ANY_STATUS), Requests(g, events, k, FAILED);
    Measures(requests, requests - failed, failed, Sums(g, events, k))
  }

  function GroupKeys(g: Grid, events: seq<Event>, day: int): set<Key> {
    set i | 0 <= i < |events| && DayOf(g, events[i]) == day :: KeyOf(g, events[i])
  }

  /** One row per dimension key of the day. */
  function Aggregate(g: Grid, events: seq<Event>, day: int): map<Key, Measures> {
    map k | k in GroupKeys(g, events, day) :: GroupMeasures(g, events, k)
  }

  // ---------------------------------------------------------------------------------------
  // What the aggregate promises
  // ---------------------------------------------------------------------------------------

  lemma {:induction false} FewerRequestRows(g: Grid, events: seq<Event>, k: Key)
    ensures RequestRows(g, events, k, FAILED) <= RequestRows(g, events, k, ANY_STATUS)
  {
    if events != [] {
      FewerRequestRows(g, events[1..], k);
    }
  }

  /** Counting each correlation id once never makes more failures than requests. */
  lemma FailedAtMostRequests(g: Grid, events: seq<Event>, k: Key)
    ensures var m := GroupMeasures(g, events, k);
      0 <= m.failed <= m.requests && 0 <= m.success && m.success + m.failed == m.requests
  {
    FewerRequestRows(g, events, k);
    var all, failed := Correlations(g, events, k, ANY_STATUS), Correlations(g, events, k, FAILED);
    assert failed <= all;
    SubsetSize(failed, all);
  }

  lemma SubsetSize<T>(a: set<T>, b: set<T>)
    requires a <= b
    ensures |a| <= |b|
  {
    assert b == a + (b - a);
  }

  lemma {:induction false} RequestRowsAppend(g: Grid, events: seq<Event>, e: Event, k: Key, atLeast: Option<int>)
    ensures RequestRows(g, events + [e], k, atLeast)
         == RequestRows(g, events, k, atLeast) + if KeyOf(g, e) == k && RequestRow(e, atLeast) then 1 else 0
  {
    if events == [] {
      assert (events + [e])[1..] == [];
    } else {
      RequestRowsAppend(g, events[1..], e, k, atLeast);
      assert (events + [e])[1..] == events[1..] + [e];
    }
  }

  lemma CorrelationsAppend(g: Grid, events: seq<Event>, e: Event, k: Key, atLeast: Option<int>)
    ensures Correlations(g, events + [e], k, atLeast)
         == Correlations(g, events, k, atLeast) +
            if KeyOf(g, e) == k && LegacyRow(e, atLeast) then {e.data.correlation} else {}
  {
    var more := events + [e];
    assert forall i :: 0 <= i < |events| ==> more[i] == events[i];
    assert more[|events|] == e;
    forall c | c in Correlations(g, events, k, atLeast)
      ensures c in Correlations(g, more, k, atLeast)
    {
      var i :| 0 <= i < |events| && KeyOf(g, events[i]) == k && LegacyRow(events[i], atLeast) &&
               events[i].data.correlation == c;
      assert more[i] == events[i];
    }
  }

  /**
   What one more event adds to its group's count: a request row always counts, even when its
   correlation id was seen before; an older usage row with a status counts only for a correlation
   id not seen on such a row; a row without a status never counts.
   */
  lemma RequestCountStep(g: Grid, events: seq<Event>, e: Event, k: Key, atLeast: Option<int>)
    ensures Requests(g, events + [e], k, atLeast) == Requests(g, events, k, atLeast) +
      if KeyOf(g, e) == k &&
         (RequestRow(e, atLeast) ||
          (LegacyRow(e, atLeast) && e.data.correlation !in Correlations(g, events, k, atLeast))) then 1 else 0
  {
    RequestRowsAppend(g, events, e, k, atLeast);
    CorrelationsAppend(g, events, e, k, atLeast);
    var seen := Correlations(g, events, k, atLeast);
    if e.data.correlation in seen {
      assert seen + {e.data.correlation} == seen;
    }
  }

  lemma {:induction false} SumAppend(g: Grid, events: seq<Event>, e: Event, k: Key, c: Column)
    ensures Sum(g, events + [e], k, c)
         == Sum(g, events, k, c) + if KeyOf(g, e) == k then Cell(e.data.amounts, c) else 0.0
  {
    if events == [] {
      assert (events + [e])[1..] == [];
    } else {
      SumAppend(g, events[1..], e, k, c);
      assert (events + [e])[1..] == events[1..] + [e];
    }
  }

  /** A row of the group with units and a status from this one on carries the same correlation id. */
  ghost predicate SeenWithUnits(g: Grid, events: seq<Event>, k: Key, correlation: string, failed: bool) {
    exists i :: 0 <= i < |events| && BelongsTo(g, events[i], k) && events[i].data.correlation == correlation
                && events[i].data.amounts.totalUnits > 0.0 && HasStatus(events[i], failed)
  }

  /** The event is of the key's day, billing month and dimensions. */
  predicate BelongsTo(g: Grid, e: Event, k: Key) {
    SlotOf(g, e.key) == k.date && e.data.dims == k.dims && e.data.month == k.month
  }

  predicate HasStatus(e: Event, failed: bool) { e.data.status.Some? && (failed ==> e.data.status.value >= 400) }

  /** How many requests one more event of the group stands for: of all, or of the failed ones. */
  ghost function StandsFor(g: Grid, events: seq<Event>, e: Event, k: Key, failed: bool): nat {
    if !HasStatus(e, failed) then 0
    else if e.data.amounts.totalUnits == 0.0 then 1
    else if e.data.amounts.totalUnits > 0.0 && !SeenWithUnits(g, events, k, e.data.correlation, failed) then 1
    else 0
  }

  lemma CountStep(g: Grid, events: seq<Event>, e: Event, k: Key, failed: bool)
    requires BelongsTo(g, e, k)
    ensures
      var least := if failed then FAILED else ANY_STATUS;
      Requests(g, events + [e], k, least) == Requests(g, events, k, least) + StandsFor(g, events, e, k, failed)
  {
    var least := if failed then FAILED else ANY_STATUS;
    RequestCountStep(g, events, e, k, least);
    if SeenWithUnits(g, events, k, e.data.correlation, failed) {
      var i :| 0 <= i < |events| && BelongsTo(g, events[i], k) && events[i].data.correlation == e.data.correlation
               && events[i].data.amounts.totalUnits > 0.0 && HasStatus(events[i], failed);
      assert LegacyRow(events[i], least);
    }
  }

  /**
   What one more event does to a row of the aggregate: its units and costs are added column by column,
   and it counts as a request, and as a failed one, if it stands for a request not counted yet. An event
   of another group changes nothing.
   */
  lemma MeasuresStep(g: Grid, events: seq<Event>, e: Event, k: Key)
    ensures !BelongsTo(g, e, k) ==> GroupMeasures(g, events + [e], k) == GroupMeasures(g, events, k)
    ensures BelongsTo(g, e, k) ==>
      var before, after := GroupMeasures(g, events, k), GroupMeasures(g, events + [e], k);
      && after.requests == before.requests + StandsFor(g, events, e, k, false)
      && after.failed == before.failed + StandsFor(g, events, e, k, true)
      && after.success == after.requests - after.failed
      && after.amounts.totalUnits == before.amounts.totalUnits + e.data.amounts.totalUnits
      && after.amounts.cachedUnits == before.amounts.cachedUnits + e.data.amounts.cachedUnits
      && after.amounts.outputUnits == before.amounts.outputUnits + e.data.amounts.outputUnits
      && after.amounts.inputCost == before.amounts.inputCost + e.data.amounts.inputCost
      && after.amounts.cachedCost == before.amounts.cachedCost + e.data.amounts.cachedCost
      && after.amounts.outputCost == before.amounts.outputCost + e.data.amounts.outputCost
  {
    forall c: Column { SumAppend(g, events, e, k, c); }
    if BelongsTo(g, e, k) {
      CountStep(g, events, e, k, false);
      CountStep(g, events, e, k, true);
    } else {
      RequestCountStep(g, events, e, k, ANY_STATUS);
      RequestCountStep(g, events, e, k, FAILED);
    }
  }

  /** A group of no events is zero throughout. */
  lemma NoEventsMeasureNothing(g: Grid, k: Key)
    ensures GroupMeasures(g, [], k) == Measures(0, 0, 0, Amounts(0.0, 0.0, 0.0, 0.0, 0.0, 0.0))
  {
  }

  /** The aggregate has a row exactly for the keys that some event of the day belongs to. */
  lemma AggregateKeys(g: Grid, events: seq<Event>, day: int, k: Key)
    ensures k in Aggregate(g, events, day) <==>
            k.date == day && exists i :: 0 <= i < |events| && BelongsTo(g, events[i], k)
    ensures k in Aggregate(g, events, day) ==> Aggregate(g, events, day)[k] == GroupMeasures(g, events, k)
  {
    if i :| 0 <= i < |events| && BelongsTo(g, events[i], k) && k.date == day {
      assert KeyOf(g, events[i]) == k;
    }
    if k in GroupKeys(g, events, day) {
      var i :| 0 <= i < |events| && DayOf(g, events[i]) == day && KeyOf(g, events[i]) == k;
      assert BelongsTo(g, events[i], k);
    }
  }

  /** Everything the day's events carry in a column. */
  function DaySum(g: Grid, events: seq<Event>, day: int, c: Column): real {
    if events == [] then 0.0
    else
      (if DayOf(g, events[0]) == day then Cell(events[0].data.amounts, c) else 0.0) + DaySum(g, events[1..], day, c)
  }

  ghost function SumOver(g: Grid, events: seq<Event>, keys: set<Key>, c: Column): real
    decreases |keys|
  {
    if keys == {} then 0.0
    else
      var k :| k in keys;
      Sum(g, events, k, c) + SumOver(g, events, keys - {k}, c)
  }

  lemma {:induction false} SumOverPick(g: Grid, events: seq<Event>, keys: set<Key>, k: Key, c: Column)
    requires k in keys
    ensures SumOver(g, events, keys, c) == Sum(g, events, k, c) + SumOver(g, events, keys - {k}, c)
    decreases |keys|
  {
    var first :| first in keys &&
      SumOver(g, events, keys, c) == Sum(g, events, first, c) + SumOver(g, events, keys - {first}, c);
    if first != k {
      SumOverPick(g, events, keys - {first}, k, c);
      SumOverPick(g, events, keys - {k}, first, c);
      assert keys - {first} - {k} == keys - {k} - {first};
    }
  }

  lemma {:induction false} SumOverNoEvents(g: Grid, keys: set<Key>, c: Column)
    ensures SumOver(g, [], keys, c) == 0.0
    decreases |keys|
  {
    if keys != {} {
      var k :| k in keys;
      SumOverPick(g, [], keys, k, c);
      SumOverNoEvents(g, keys - {k}, c);
    }
  }

  /** Keys other than the event's own do not see it. */
  lemma {:induction false} SumOverSkip(g: Grid, events: seq<Event>, keys: set<Key>, c: Column)
    requires events != [] && KeyOf(g, events[0]) !in keys
    ensures SumOver(g, events, keys, c) == SumOver(g, events[1..], keys, c)
    decreases |keys|
  {
    if keys != {} {
      var k :| k in keys;
      SumOverPick(g, events, keys, k, c);
      SumOverPick(g, events[1..], keys, k, c);
      SumOverSkip(g, events, keys - {k}, c);
    }
  }

  lemma {:induction false} GroupsConserve(g: Grid, events: seq<Event>, day: int, keys: set<Key>, c: Column)
    requires forall i :: 0 <= i < |events| && DayOf(g, events[i]) == day ==> KeyOf(g, events[i]) in keys
    requires forall k :: k in keys ==> k.date == day
    ensures SumOver(g, events, keys, c) == DaySum(g, events, day, c)
  {
    if events == [] {
      SumOverNoEvents(g, keys, c);
    } else {
      var rest, k := events[1..], KeyOf(g, events[0]);
      assert forall i :: 0 <= i < |rest| ==> rest[i] == events[i + 1];
      GroupsConserve(g, rest, day, keys, c);
      if k in keys {
        SumOverPick(g, events, keys, k, c);
        SumOverPick(g, rest, keys, k, c);
        SumOverSkip(g, events, keys - {k}, c);
      } else {
        SumOverSkip(g, events, keys, c);
      }
    }
  }

  /** What the rows of these keys carry in a column. */
  ghost function RowsTotal(groups: map<Key, Measures>, keys: set<Key>, c: Column): real
    requires keys <= groups.Keys
    decreases |keys|
  {
    if keys == {} then 0.0
    else
      var k :| k in keys;
      Cell(groups[k].amounts, c) + RowsTotal(groups, keys - {k}, c)
  }

  predicate Measured(g: Grid, events: seq<Event>, groups: map<Key, Measures>) {
    forall k :: k in groups ==> groups[k] == GroupMeasures(g, events, k)
  }

  lemma RowCarriesSum(g: Grid, events: seq<Event>, groups: map<Key, Measures>, k: Key, c: Column)
    requires Measured(g, events, groups) && k in groups
    ensures Cell(groups[k].amounts, c) == Sum(g, events, k, c)
  {
  }

  lemma {:induction false} RowsCarrySums(
      g: Grid, events: seq<Event>, groups: map<Key, Measures>, keys: set<Key>, c: Column)
    requires keys <= groups.Keys && Measured(g, events, groups)
    ensures RowsTotal(groups, keys, c) == SumOver(g, events, keys, c)
    decreases |keys|
  {
    if keys != {} {
      var k := PickedRow(groups, keys, c);
      RowCarriesSum(g, events, groups, k, c);
      SumOverPick(g, events, keys, k, c);
      RowsCarrySums(g, events, groups, keys - {k}, c);
    }
  }

  lemma PickedRow(groups: map<Key, Measures>, keys: set<Key>, c: Column) returns (k: Key)
    requires keys != {} && keys <= groups.Keys
    ensures k in keys
    ensures RowsTotal(groups, keys, c) == Cell(groups[k].amounts, c) + RowsTotal(groups, keys - {k}, c)
  {
    k :| k in keys && RowsTotal(groups, keys, c) == Cell(groups[k].amounts, c) + RowsTotal(groups, keys - {k}, c);
  }

  /** The day's units and costs are distributed over the aggregate's rows without loss, in every column. */
  lemma AggregateConserves(g: Grid, events: seq<Event>, day: int, c: Column)
    ensures
      var groups := Aggregate(g, events, day);
      RowsTotal(groups, groups.Keys, c) == DaySum(g, events, day, c)
  {
    var groups := Aggregate(g, events, day);
    GroupsConserve(g, events, day, GroupKeys(g, events, day), c);
    assert groups.Keys == GroupKeys(g, events, day);
    RowsCarrySums(g, events, groups, groups.Keys, c);
  }

  // ---------------------------------------------------------------------------------------
  // The aggregate depends on the rows, not on where they are stored
  // ---------------------------------------------------------------------------------------

  lemma {:induction false} RemoveRequestRow(g: Grid, events: seq<Event>, j: nat, k: Key, atLeast: Option<int>)
    requires j < |events|
    ensures RequestRows(g, events, k, atLeast)
         == RequestRows(g, [events[j]], k, atLeast) + RequestRows(g, Without(events, j), k, atLeast)
  {
    if j == 0 {
      assert Without(events, j) == events[1..] && [events[j]][1..] == [];
    } else {
      RemoveRequestRow(g, events[1..], j - 1, k, atLeast);
      assert Without(events, j)[1..] == Without(events[1..], j - 1);
    }
  }

  lemma {:induction false} RemoveAddend(g: Grid, events: seq<Event>, j: nat, k: Key, c: Column)
    requires j < |events|
    ensures Sum(g, events, k, c) == Sum(g, [events[j]], k, c) + Sum(g, Without(events, j), k, c)
  {
    if j == 0 {
      assert Without(events, j) == events[1..] && [events[j]][1..] == [];
    } else {
      RemoveAddend(g, events[1..], j - 1, k, c);
      assert Without(events, j)[1..] == Without(events[1..], j - 1);
    }
  }

  lemma {:induction false} SameRequestRows(g: Grid, a: seq<Event>, b: seq<Event>, k: Key, atLeast: Option<int>)
    requires multiset(a) == multiset(b)
    ensures RequestRows(g, a, k, atLeast) == RequestRows(g, b, k, atLeast)
    decreases |a|
  {
    if a == [] {
      assert |multiset(b)| == 0;
    } else {
      var j := FindFirst(a, b);
      SameRequestRows(g, a[1..], Without(b, j), k, atLeast);
      RemoveRequestRow(g, b, j, k, atLeast);
      RemoveRequestRow(g, a, 0, k, atLeast);
      assert Without(a, 0) == a[1..];
    }
  }

  lemma {:induction false} SameSum(g: Grid, a: seq<Event>, b: seq<Event>, k: Key, c: Column)
    requires multiset(a) == multiset(b)
    ensures Sum(g, a, k, c) == Sum(g, b, k, c)
    decreases |a|
  {
    if a == [] {
      assert |multiset(b)| == 0;
    } else {
      var j := FindFirst(a, b);
      SameSum(g, a[1..], Without(b, j), k, c);
      RemoveAddend(g, b, j, k, c);
      RemoveAddend(g, a, 0, k, c);
      assert Without(a, 0) == a[1..];
    }
  }

  lemma SameKeys(g: Grid, a: seq<Event>, b: seq<Event>, day: int)
    requires multiset(a) == multiset(b)
    ensures GroupKeys(g, a, day) <= GroupKeys(g, b, day)
  {
    forall i | 0 <= i < |a| && DayOf(g, a[i]) == day
      ensures KeyOf(g, a[i]) in GroupKeys(g, b, day)
    {
      assert a[i] in multiset(b);
      var j :| 0 <= j < |b| && b[j] == a[i];
    }
  }

  lemma SameCorrelations(g: Grid, a: seq<Event>, b: seq<Event>, k: Key, atLeast: Option<int>)
    requires multiset(a) == multiset(b)
    ensures Correlations(g, a, k, atLeast) <= Correlations(g, b, k, atLeast)
  {
    forall i | 0 <= i < |a| && KeyOf(g, a[i]) == k && LegacyRow(a[i], atLeast)
      ensures a[i].data.correlation in Correlations(g, b, k, atLeast)
    {
      assert a[i] in multiset(b);
      var j :| 0 <= j < |b| && b[j] == a[i];
    }
  }

  lemma SameGroup(g: Grid, a: seq<Event>, b: seq<Event>, k: Key)
    requires multiset(a) == multiset(b)
    ensures GroupMeasures(g, a, k) == GroupMeasures(g, b, k)
  {
    SameRequestRows(g, a, b, k, ANY_STATUS);
    SameRequestRows(g, a, b, k, FAILED);
    forall c: Column { SameSum(g, a, b, k, c); }
    SameCorrelations(g, a, b, k, ANY_STATUS);
    SameCorrelations(g, b, a, k, ANY_STATUS);
    SameCorrelations(g, a, b, k, FAILED);
    SameCorrelations(g, b, a, k, FAILED);
    assert Correlations(g, a, k, ANY_STATUS) == Correlations(g, b, k, ANY_STATUS);
    assert Correlations(g, a, k, FAILED) == Correlations(g, b, k, FAILED);
  }

  lemma AggregateIgnoresOrder(g: Grid, a: seq<Event>, b: seq<Event>, day: int)
    requires multiset(a) == multiset(b)
    ensures Aggregate(g, a, day) == Aggregate(g, b, day)
  {
    SameKeys(g, a, b, day);
    SameKeys(g, b, a, day);
    assert GroupKeys(g, a, day) == GroupKeys(g, b, day);
    forall k | k in GroupKeys(g, a, day)
      ensures GroupMeasures(g, a, k) == GroupMeasures(g, b, k)
    {
      SameGroup(g, a, b, k);
    }
  }

  /** Whether or not partition maintenance ran, the rollup reads the same groups. */
  lemma MaintenanceKeepsRollup(g: Grid, t: Table<Usage>, today: int, ahead: nat, t': Table<Usage>,
                               before: seq<Event>, after: seq<Event>, day: int)
    requires UsageEvents.Maintained(g, t, today, ahead, t')
    requires multiset(before) == Contents(t) && multiset(after) == Contents(t')
    ensures Aggregate(g, before, day) == Aggregate(g, after, day)
  {
    AggregateIgnoresOrder(g, before, after, day);
  }

  // ---------------------------------------------------------------------------------------
  // Upsert and stale-row delete
  // ---------------------------------------------------------------------------------------

  /** INSERT ... ON CONFLICT DO UPDATE: an existing row keeps its source, a new one is 'rollup'. */
  function Upserted(daily: Daily, k: Key, m: Measures, now: int): Stored {
    if k in daily then daily[k].(measures := m, updatedAt := now) else Stored(Rollup, m, now)
  }

  function Upsert(daily: Daily, k: Key, m: Measures, now: int): Daily {
    daily[k := Upserted(daily, k, m, now)]
  }

  predicate Stale(k: Key, row: Stored, day: int, now: int) {
    k.date == day && row.source == Rollup && row.updatedAt < now
  }

  /** DELETE ... WHERE usage_date = day AND source = 'rollup' AND updated_at < now(). */
  function DeleteStale(daily: Daily, day: int, now: int): Daily {
    map k | k in daily && !Stale(k, daily[k], day, now) :: daily[k]
  }

  function UpsertAll(daily: Daily, groups: map<Key, Measures>, done: set<Key>, now: int): Daily
    requires done <= groups.Keys
  {
    map k | k in daily.Keys + done :: if k in done then Upserted(daily, k, groups[k], now) else daily[k]
  }

  /** The table after the transaction. */
  function RollupTable(g: Grid, daily: Daily, events: seq<Event>, day: int, now: int): Daily {
    var groups := Aggregate(g, events, day);
    DeleteStale(UpsertAll(daily, groups, groups.Keys, now), day, now)
  }

  method UpsertGroups(daily: Daily, groups: map<Key, Measures>, now: int) returns (r: Daily)
    ensures r == UpsertAll(daily, groups, groups.Keys, now)
  {
    var done: set<Key> := {};
    r := daily;
    assert r == UpsertAll(daily, groups, done, now);
    while groups.Keys - done != {}
      invariant done <= groups.Keys
      invariant r == UpsertAll(daily, groups, done, now)
      decreases groups.Keys - done
    {
      var k :| k in groups.Keys - done;
      r := Upsert(r, k, groups[k], now);
      UpsertNext(daily, groups, done, k, now);
      done := done + {k};
    }
    assert done == groups.Keys;
  }

  /** The aggregate rows are upserted one by one, then the stale rows go. */
  method RollupDay(g: Grid, daily: Daily, events: seq<Event>, day: int, now: int) returns (r: Daily)
    ensures r == RollupTable(g, daily, events, day, now)
  {
    var groups := Aggregate(g, events, day);
    r := UpsertGroups(daily, groups, now);
    r := DeleteStale(r, day, now);
  }

  lemma UpsertNext(daily: Daily, groups: map<Key, Measures>, done: set<Key>, k: Key, now: int)
    requires done <= groups.Keys && k in groups && k !in done
    ensures Upsert(UpsertAll(daily, groups, done, now), k, groups[k], now)
         == UpsertAll(daily, groups, done + {k}, now)
  {
  }

  // ---------------------------------------------------------------------------------------
  // The rollup refines the group-by
  // ---------------------------------------------------------------------------------------

  predicate NoBackfillOn(daily: Daily, day: int) {
    forall k :: k in daily && k.date == day ==> daily[k].source == Rollup
  }

  predicate WrittenBefore(daily: Daily, day: int, now: int) {
    forall k :: k in daily && k.date == day ==> daily[k].updatedAt < now
  }

  /** The other days as they were, and the day's groups, all written by this transaction. */
  function GroupByTable(g: Grid, daily: Daily, events: seq<Event>, day: int, now: int): Daily {
    var groups := Aggregate(g, events, day);
    (map k | k in daily && k.date != day :: daily[k]) + (map k | k in groups :: Stored(Rollup, groups[k], now))
  }

  lemma GroupDates(g: Grid, events: seq<Event>, day: int)
    ensures forall k :: k in Aggregate(g, events, day) ==> k.date == day
  {
  }

  /**
   When the day has no backfill rows, the table after the rollup is exactly the group-by of the
   day's events next to the untouched other days: vanished keys are gone, nothing else is.
   */
  lemma RollupRefinesGroupBy(g: Grid, daily: Daily, events: seq<Event>, day: int, now: int)
    requires NoBackfillOn(daily, day) && WrittenBefore(daily, day, now)
    ensures RollupTable(g, daily, events, day, now) == GroupByTable(g, daily, events, day, now)
  {
    GroupDates(g, events, day);
    var groups := Aggregate(g, events, day);
    var upserted := UpsertAll(daily, groups, groups.Keys, now);
    var result, expected := RollupTable(g, daily, events, day, now), GroupByTable(g, daily, events, day, now);
    forall k
      ensures k in result <==> k in expected
      ensures k in result ==> result[k] == expected[k]
    {
      if k in groups {
        assert k in upserted && !Stale(k, upserted[k], day, now);
      } else if k in daily {
        assert k in upserted && upserted[k] == daily[k];
      }
    }
  }

  /** Running the rollup again, later, leaves the same keys with the same measures. */
  lemma RollupConverges(g: Grid, daily: Daily, events: seq<Event>, day: int, now: int, later: int)
    requires NoBackfillOn(daily, day) && WrittenBefore(daily, day, now) && now < later
    ensures
      var once := RollupTable(g, daily, events, day, now);
      var twice := RollupTable(g, once, events, day, later);
      once.Keys == twice.Keys && forall k :: k in once ==> once[k].measures == twice[k].measures
  {
    GroupDates(g, events, day);
    RollupRefinesGroupBy(g, daily, events, day, now);
    var once := RollupTable(g, daily, events, day, now);
    assert WrittenBefore(once, day, later) && NoBackfillOn(once, day);
    RollupRefinesGroupBy(g, once, events, day, later);
  }

  /**
   In general the rollup puts rollup rows on the day exactly when some group does not land on a
   backfill row; a group that does takes over the estimate's measures and stays 'backfill'.
   */
  lemma RollupRowsAppear(g: Grid, daily: Daily, events: seq<Event>, day: int, now: int)
    requires forall k :: k in daily && k.date == day ==> daily[k].source == Backfill
    ensures
      var result := RollupTable(g, daily, events, day, now);
      NoRollupOn(result, day) <==> Aggregate(g, events, day).Keys <= daily.Keys
  {
    GroupDates(g, events, day);
    var groups := Aggregate(g, events, day);
    var upserted := UpsertAll(daily, groups, groups.Keys, now);
    var result := RollupTable(g, daily, events, day, now);
    forall k | k in groups
      ensures k in result && (result[k].source == Backfill <==> k in daily)
    {
      assert k in upserted && !Stale(k, upserted[k], day, now);
    }
    forall k | k in daily && k !in groups && k.date == day
      ensures k in result && result[k] == daily[k]
    {
      assert k in upserted && upserted[k] == daily[k];
    }
  }

  predicate NoRollupOn(daily: Daily, day: int) {
    forall k :: k in daily && k.date == day ==> daily[k].source == Backfill
  }
}
