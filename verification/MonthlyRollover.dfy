/**
 Month partitions of daily_usage (services/pyjob/jobs/monthly_partition_rollover.py): calendar
 month arithmetic, and the transaction that creates the months ahead and moves their rows out of
 DEFAULT. Month partitions are recognised by name only, whatever their bounds.
 */
module MonthlyRollover {
  import opened Options
  import opened Ordering
  import opened PartitionedTable

  datatype Date = Date(year: int, month: int, day: int)

  const MAX_YEAR := 9999
  const MAX_MONTH := MAX_YEAR * 12 + 11

  predicate Valid(d: Date) {
    1 <= d.year <= MAX_YEAR && 1 <= d.month <= 12 && 1 <= d.day <= 31
  }

  function MonthIndex(d: Date): int { d.year * 12 + (d.month - 1) }

  /** None is the ValueError of a year outside 1..9999. */
  function AddMonths(month: Date, n: int): Option<Date> {
    var index := MonthIndex(month) + n;
    if 1 <= index / 12 <= MAX_YEAR then Some(Date(index / 12, index % 12 + 1, 1)) else None
  }

  predicate Before(a: Date, b: Date) {
    || a.year < b.year
    || (a.year == b.year && a.month < b.month)
    || (a.year == b.year && a.month == b.month && a.day < b.day)
  }

  lemma AddMonthsIndex(month: Date, n: int)
    requires AddMonths(month, n).Some?
    ensures Valid(AddMonths(month, n).value)
    ensures MonthIndex(AddMonths(month, n).value) == MonthIndex(month) + n
  {
    var index := MonthIndex(month) + n;
    assert index == index / 12 * 12 + index % 12;
  }

  /** The first of the month n months on: twelve months to a year, in the years 1 to 9999 and not outside. */
  lemma AddMonthsExactly(month: Date, n: int)
    requires Valid(month)
    ensures AddMonths(month, n).Some? <==> 12 <= month.year * 12 + month.month - 1 + n < 10_000 * 12
    ensures AddMonths(month, n).Some? ==>
      var d := AddMonths(month, n).value;
      && 1 <= d.year <= 9999 && 1 <= d.month <= 12 && d.day == 1
      && d.year * 12 + d.month == month.year * 12 + month.month + n
    ensures month.month < 12 ==> AddMonths(month, 1) == Some(Date(month.year, month.month + 1, 1))
    ensures month.month == 12 && month.year < 9999 ==> AddMonths(month, 1) == Some(Date(month.year + 1, 1, 1))
    ensures AddMonths(Date(9999, 12, 1), 1).None?
  {
    var index := MonthIndex(month) + n;
    assert index == index / 12 * 12 + index % 12;
  }

  /** The calendar's part of CanCreate: the last month wanted exists, and so does the month after each created one. */
  lemma WantedMonthsExist(today: Date, ahead: nat)
    requires Valid(today)
    ensures MonthIndex(today) + ahead <= MAX_MONTH <==> AddMonths(today, ahead).Some?
    ensures MonthIndex(today) + ahead < MAX_MONTH <==> AddMonths(today, ahead + 1).Some?
  {
  }

  /** Adding a then b months is adding a + b months, also in which of the two runs off the calendar. */
  lemma AddMonthsComposes(month: Date, a: int, b: int)
    requires AddMonths(month, a).Some?
    ensures AddMonths(AddMonths(month, a).value, b) == AddMonths(month, a + b)
  {
    AddMonthsIndex(month, a);
  }

  lemma AddMonthsInverts(month: Date, n: int)
    requires Valid(month) && month.day == 1 && AddMonths(month, n).Some?
    ensures AddMonths(AddMonths(month, n).value, -n) == Some(month)
  {
    AddMonthsIndex(month, n);
  }

  /** The range of a month, from its first day to the first day of the next, is that calendar month. */
  lemma MonthRange(month: Date, d: Date)
    requires Valid(month) && month.day == 1 && Valid(d) && AddMonths(month, 1).Some?
    ensures !Before(d, month) && Before(d, AddMonths(month, 1).value) <==> month == Date(d.year, d.month, 1)
  {
    AddMonthsIndex(month, 1);
  }

  /** Order-preserving integer code of a date: 31 per month. */
  function Code(d: Date): int { MonthIndex(d) * 31 + (d.day - 1) }

  lemma CodeOrder(a: Date, b: Date)
    requires Valid(a) && Valid(b)
    ensures Before(a, b) <==> Code(a) < Code(b)
  {
    if MonthIndex(a) < MonthIndex(b) {
      assert Code(a) < Code(b);
    } else if MonthIndex(b) < MonthIndex(a) {
      assert Code(b) < Code(a);
    }
  }

  function Months(): Grid { Grid(k => k * 31, code => code / 31) }

  lemma MonthOfCode(d: Date)
    requires Valid(d)
    ensures SlotOf(Months(), Code(d)) == MonthIndex(d)
    ensures Lower(Months(), MonthIndex(d)) == Code(Date(d.year, d.month, 1))
  {
  }

  // ---------------------------------------------------------------------------------------
  // The rollover transaction
  // ---------------------------------------------------------------------------------------

  datatype Outcome<P> = Done(table: Table<P>, created: seq<int>, moved: nat) | Failed(reason: Error)

  predicate NotListed(names: set<RelName>, k: int) { Slot(k) !in names }

  /** The months from current to current + ahead that have no partition of their name. */
  function MonthsToCreate(names: set<RelName>, current: int, ahead: nat): seq<int> {
    (if ahead == 0 then [] else MonthsToCreate(names, current, ahead - 1)) +
    (if NotListed(names, current + ahead) then [current + ahead] else [])
  }

  lemma {:induction false} MonthsToCreateSpec(names: set<RelName>, current: int, ahead: nat)
    ensures Ascending(MonthsToCreate(names, current, ahead))
    ensures forall k :: k in MonthsToCreate(names, current, ahead) <==>
                        current <= k <= current + ahead && NotListed(names, k)
  {
    if ahead > 0 {
      MonthsToCreateSpec(names, current, ahead - 1);
      var sooner := MonthsToCreate(names, current, ahead - 1);
      assert forall i :: 0 <= i < |sooner| ==> sooner[i] in sooner;
    }
  }

  function AsSet(s: seq<int>): (r: set<int>)
    ensures forall k :: k in r <==> k in s
  {
    set k | k in s
  }

  function DefaultRows<P>(t: Table<P>): seq<Row<P>> {
    if t.default.Some? then t.default.value else []
  }

  /** The created months hold exactly the rows DEFAULT had for them; everything else is as before. */
  ghost predicate RolledOver<P>(g: Grid, t: Table<P>, created: seq<int>, t': Table<P>) {
    && |t'.parts| == |t.parts| + |created|
    && (forall i :: 0 <= i < |t.parts| ==> t'.parts[i] == t.parts[i])
    && (forall i :: 0 <= i < |created| ==>
          t'.parts[|t.parts| + i] == EmptySlot(g, created[i]).(rows := InSlots(g, DefaultRows(t), {created[i]})))
    && (t.default.None? ==> t'.default.None?)
    && (t.default.Some? ==> t'.default == Some(OutsideSlots(g, t.default.value, AsSet(created))))
  }

  /** Every partition named like a month names one. */
  predicate NamesReadable<P>(parts: seq<Part<P>>) { forall i :: 0 <= i < |parts| ==> !parts[i].name.NoSlot? }

  predicate CanCreate<P>(g: Grid, parts: seq<Part<P>>, current: int, ahead: nat, reserved: set<RelName>) {
    && current + ahead <= MAX_MONTH
    && NamesReadable(parts)
    && MAX_MONTH !in MonthsToCreate(Names(parts), current, ahead)
    && forall k :: k in MonthsToCreate(Names(parts), current, ahead) ==> SlotFree(g, parts, reserved, k)
  }

  lemma NothingCreated<P>(g: Grid, t: Table<P>, created: seq<int>)
    requires created == []
    ensures RolledOver(g, t, created, t)
  {
    if t.default.Some? {
      NothingListed(g, t.default.value, AsSet(created));
    }
  }

  lemma {:induction false} NothingListed<P>(g: Grid, rows: seq<Row<P>>, slots: set<int>)
    requires slots == {}
    ensures OutsideSlots(g, rows, slots) == rows
  {
    if rows != [] {
      NothingListed(g, rows[1..], slots);
    }
  }

  /** A row goes to the created partition of its month, or to none of the listed partitions. */
  ghost predicate RoutesToMonth<P>(g: Grid, parts: seq<Part<P>>, n: nat, created: seq<int>, r: Row<P>) {
    && n + |created| == |parts|
    && (SlotOf(g, r.key) in created ==> n <= Route(parts, r.key) < |parts|)
    && forall i :: 0 <= i < |created| ==> (Route(parts, r.key) == n + i <==> created[i] == SlotOf(g, r.key))
  }

  ghost predicate AllRouteToMonth<P>(g: Grid, parts: seq<Part<P>>, n: nat, created: seq<int>, rows: seq<Row<P>>) {
    forall r :: r in rows ==> RoutesToMonth(g, parts, n, created, r)
  }

  ghost predicate DefaultRowsRoute<P>(g: Grid, t: Table<P>, created: seq<int>) {
    AllRouteToMonth(g, t.parts + EmptySlots(g, created), |t.parts|, created, DefaultRows(t))
  }

  lemma EveryDefaultRowRoutes<P>(g: Grid, t: Table<P>, created: seq<int>)
    requires Legal(t) && Ascending(created)
    ensures DefaultRowsRoute(g, t, created)
  {
    forall r | r in DefaultRows(t)
      ensures RoutesToMonth(g, t.parts + EmptySlots(g, created), |t.parts|, created, r)
    {
      assert forall j :: 0 <= j < |t.parts| ==> !t.parts[j].Holds(r.key);
      StrayRowRoutes(g, t.parts, created, r);
    }
  }

  lemma StrayRowRoutes<P>(g: Grid, listed: seq<Part<P>>, created: seq<int>, r: Row<P>)
    requires Ascending(created) && forall j :: 0 <= j < |listed| ==> !listed[j].Holds(r.key)
    ensures RoutesToMonth(g, listed + EmptySlots(g, created), |listed|, created, r)
  {
    var n := |listed|;
    var parts := listed + EmptySlots(g, created);
    forall i | 0 <= i < |created|
      ensures parts[n + i].Holds(r.key) <==> created[i] == SlotOf(g, r.key)
    {
      CanonicalHolds(g, EmptySlot<P>(g, created[i]), r.key);
    }
    OneHolder(parts, n, created, SlotOf(g, r.key), r.key);
  }

  lemma OneHolder<P>(parts: seq<Part<P>>, n: nat, created: seq<int>, slot: int, key: int)
    requires Ascending(created) && n + |created| == |parts|
    requires forall j :: 0 <= j < n ==> !parts[j].Holds(key)
    requires forall i :: 0 <= i < |created| ==> (parts[n + i].Holds(key) <==> created[i] == slot)
    ensures slot in created ==> n <= Route(parts, key) < |parts|
    ensures forall i :: 0 <= i < |created| ==> (Route(parts, key) == n + i <==> created[i] == slot)
  {
    var k := Route(parts, key);
    if k < |parts| {
      assert k >= n && created[k - n] == slot;
    }
  }

  lemma {:induction false} RoutedFilter<P>(g: Grid, parts: seq<Part<P>>, n: nat, created: seq<int>,
                                           rows: seq<Row<P>>, i: nat)
    requires i < |created|
    requires AllRouteToMonth(g, parts, n, created, rows)
    ensures RoutedTo(parts, InSlots(g, rows, AsSet(created)), n + i) == InSlots(g, rows, {created[i]})
  {
    if rows != [] {
      assert rows[0] in rows;
      assert RoutesToMonth(g, parts, n, created, rows[0]);
      RoutedFilter(g, parts, n, created, rows[1..], i);
      var rest := InSlots(g, rows[1..], AsSet(created));
      if SlotOf(g, rows[0].key) in created {
        assert InSlots(g, rows, AsSet(created)) == [rows[0]] + rest;
        RoutedToFirst(parts, rows[0], rest, n + i);
      } else {
        assert InSlots(g, rows, AsSet(created)) == rest;
        assert InSlots(g, rows, {created[i]}) == InSlots(g, rows[1..], {created[i]});
      }
    }
  }

  lemma RoutedToFirst<P>(parts: seq<Part<P>>, r: Row<P>, rows: seq<Row<P>>, i: nat)
    ensures RoutedTo(parts, [r] + rows, i) == (if Route(parts, r.key) == i then [r] else []) + RoutedTo(parts, rows, i)
  {
    assert ([r] + rows)[1..] == rows;
  }

  lemma {:induction false} RoutedNowhere<P>(parts: seq<Part<P>>, rows: seq<Row<P>>, j: nat)
    requires forall r :: r in rows ==> Route(parts, r.key) != j
    ensures RoutedTo(parts, rows, j) == []
  {
    if rows != [] {
      assert rows[0] in rows;
      RoutedNowhere(parts, rows[1..], j);
    }
  }

  /** What the job has moved out of DEFAULT. */
  function Moved<P>(g: Grid, t: Table<P>, created: seq<int>): seq<Row<P>> {
    InSlots(g, DefaultRows(t), AsSet(created))
  }

  function WithoutMoved<P>(g: Grid, t: Table<P>, created: seq<int>): Table<P> {
    if t.default.Some? then t.(default := Some(OutsideSlots(g, t.default.value, AsSet(created)))) else t
  }

  lemma MovedRowsRoute<P>(g: Grid, t: Table<P>, created: seq<int>)
    requires DefaultRowsRoute(g, t, created)
    ensures AllRoute(t.parts + EmptySlots(g, created), Moved(g, t, created))
    ensures forall r :: r in Moved(g, t, created) ==>
      |t.parts| <= Route(t.parts + EmptySlots(g, created), r.key)
  {
    var parts := t.parts + EmptySlots(g, created);
    SlotMembers(g, DefaultRows(t), AsSet(created));
    forall r | r in Moved(g, t, created)
      ensures |t.parts| <= Route(parts, r.key) < |parts|
    {
      assert RoutesToMonth(g, parts, |t.parts|, created, r);
    }
  }

  lemma MonthRows<P>(g: Grid, t: Table<P>, created: seq<int>, t': Table<P>)
    requires DefaultRowsRoute(g, t, created)
    requires AppendsRouted(WithSlots(g, WithoutMoved(g, t, created), created), Moved(g, t, created), t')
    ensures RolledOver(g, t, created, t')
  {
    var tx := WithSlots(g, WithoutMoved(g, t, created), created);
    assert tx.parts == t.parts + EmptySlots(g, created);
    forall i | 0 <= i < |tx.parts|
      ensures t'.parts[i] == tx.parts[i].(rows := tx.parts[i].rows + RoutedTo(tx.parts, Moved(g, t, created), i))
    {
      assert SameBounds(t'.parts[i], tx.parts[i]);
    }
    forall i | 0 <= i < |t.parts|
      ensures t'.parts[i] == t.parts[i]
    {
      OldMonthUnchanged(g, t, created, i);
    }
    forall i | 0 <= i < |created|
      ensures t'.parts[|t.parts| + i] == EmptySlot(g, created[i]).(rows := InSlots(g, DefaultRows(t), {created[i]}))
    {
      NewMonthFilled(g, t, created, i);
    }
  }

  lemma OldMonthUnchanged<P>(g: Grid, t: Table<P>, created: seq<int>, i: nat)
    requires DefaultRowsRoute(g, t, created) && i < |t.parts|
    ensures RoutedTo(t.parts + EmptySlots(g, created), Moved(g, t, created), i) == []
  {
    MovedRowsRoute(g, t, created);
    RoutedNowhere(t.parts + EmptySlots(g, created), Moved(g, t, created), i);
  }

  lemma NewMonthFilled<P>(g: Grid, t: Table<P>, created: seq<int>, i: nat)
    requires DefaultRowsRoute(g, t, created) && i < |created|
    ensures RoutedTo(t.parts + EmptySlots(g, created), Moved(g, t, created), |t.parts| + i)
         == InSlots(g, DefaultRows(t), {created[i]})
  {
    RoutedFilter(g, t.parts + EmptySlots(g, created), |t.parts|, created, DefaultRows(t), i);
  }

  lemma NameIn<P>(parts: seq<Part<P>>, i: nat, k: int)
    requires i < |parts| && parts[i].name == Slot(k)
    ensures Slot(k) in Names(parts)
  {
  }

  lemma CreatedName<P>(g: Grid, t: Table<P>, created: seq<int>, t': Table<P>, k: int)
    requires RolledOver(g, t, created, t') && (k in created || Slot(k) in Names(t.parts))
    ensures Slot(k) in Names(t'.parts)
  {
    if k in created {
      var i :| 0 <= i < |created| && created[i] == k;
      var at := |t.parts| + i;
      assert t'.parts[at].name == Slot(k);
      NameIn(t'.parts, at, k);
    } else {
      var i :| 0 <= i < |t.parts| && t.parts[i].name == Slot(k);
      NameIn(t'.parts, i, k);
    }
  }

  lemma CreatedNames<P>(g: Grid, t: Table<P>, current: int, ahead: nat, t': Table<P>)
    requires RolledOver(g, t, MonthsToCreate(Names(t.parts), current, ahead), t')
    ensures forall k :: current <= k <= current + ahead ==> Slot(k) in Names(t'.parts)
  {
    var created := MonthsToCreate(Names(t.parts), current, ahead);
    MonthsToCreateSpec(Names(t.parts), current, ahead);
    forall k | current <= k <= current + ahead
      ensures Slot(k) in Names(t'.parts)
    {
      CreatedName(g, t, created, t', k);
    }
  }

  lemma WithoutMovedIsLegal<P>(g: Grid, t: Table<P>, created: seq<int>)
    requires Legal(t)
    ensures Legal(WithoutMoved(g, t, created))
    ensures forall x :: x in DefaultRows(WithoutMoved(g, t, created)) ==> SlotOf(g, x.key) !in created
    ensures Contents(WithoutMoved(g, t, created)) + multiset(Moved(g, t, created)) == Contents(t)
  {
    SlotSplit(g, DefaultRows(t), AsSet(created));
    SlotMembers(g, DefaultRows(t), AsSet(created));
  }

  /** _create_months: rows of DEFAULT for a month being created leave it first. */
  method CreateMonths<P>(g: Grid, t: Table<P>, created: seq<int>, reserved: set<RelName>)
    returns (r: Result<Table<P>>, moved: nat)
    requires Legal(t) && Ascending(created)
    ensures r.Ok? <==> forall k :: k in created ==> SlotFree(g, t.parts, reserved, k)
    ensures r.Ok? ==> RolledOver(g, t, created, r.value) && Legal(r.value) && Contents(r.value) == Contents(t)
    ensures created == [] ==> r == Ok(t)
  {
    if created == [] {
      NothingCreated(g, t, created);
      return Ok(t), 0;
    }
    var rows, tx := Moved(g, t, created), WithoutMoved(g, t, created);
    WithoutMovedIsLegal(g, t, created);
    var slots := CreateSlots(g, tx, reserved, created);
    if slots.Err? {
      return Err(slots.error), 0;
    }
    EveryDefaultRowRoutes(g, t, created);
    MovedRowsRoute(g, t, created);
    InsertRowsExact(slots.value, rows);
    InsertRowsKeepsLegal(slots.value, rows);
    var t' := InsertRows(slots.value, rows).value;
    MonthRows(g, t, created, t');
    return Ok(t'), |rows|;
  }

  /**
   It commits exactly when the calendar allows, no partition is named like a month that does not exist
   (reading its name as a date fails), and every month to create has a free name and range. A run with
   nothing to create changes nothing.
   */
  method RolloverTx<P>(t: Table<P>, current: int, ahead: nat, reserved: set<RelName>) returns (r: Outcome<P>)
    requires Legal(t)
    ensures r.Done? <==> CanCreate(Months(), t.parts, current, ahead, reserved)
    ensures r.Done? ==>
      && r.created == MonthsToCreate(Names(t.parts), current, ahead)
      && RolledOver(Months(), t, r.created, r.table)
      && Legal(r.table) && Contents(r.table) == Contents(t)
      && (forall k :: current <= k <= current + ahead ==> Slot(k) in Names(r.table.parts))
    ensures r.Done? && r.created == [] ==> r.table == t
  {
    var created := MonthsToCreate(Names(t.parts), current, ahead);
    MonthsToCreateSpec(Names(t.parts), current, ahead);
    if current + ahead > MAX_MONTH || !NamesReadable(t.parts) || MAX_MONTH in created {
      return Failed(OutsideCalendar);
    }
    var result, moved := CreateMonths(Months(), t, created, reserved);
    if result.Err? {
      return Failed(Sql(result.error));
    }
    CreatedNames(Months(), t, current, ahead, result.value);
    return Done(result.value, created, moved);
  }

  // ---------------------------------------------------------------------------------------
  // Where dated rows end up
  // ---------------------------------------------------------------------------------------

  /** A month's partition holds exactly the dates from its first day to before the next month's. */
  lemma MonthPartitionHolds<P>(month: Date, d: Date)
    requires Valid(month) && month.day == 1 && Valid(d) && AddMonths(month, 1).Some?
    ensures EmptySlot<P>(Months(), MonthIndex(month)).Holds(Code(d))
       <==> !Before(d, month) && Before(d, AddMonths(month, 1).value)
    ensures EmptySlot<P>(Months(), MonthIndex(month)).Holds(Code(d)) <==> month == Date(d.year, d.month, 1)
  {
    var next := AddMonths(month, 1).value;
    AddMonthsIndex(month, 1);
    MonthOfCode(month);
    CodeOrder(d, month);
    CodeOrder(d, next);
    MonthRange(month, d);
  }

  /**
   A row of DEFAULT dated in a created month ends in that month's partition, in as many copies as it
   had, and none is left in DEFAULT; a row of any other month stays there.
   */
  lemma DatedRowEndsInItsMonth<P>(t: Table<P>, created: seq<int>, t': Table<P>, d: Date, row: Row<P>)
    requires Valid(d) && row.key == Code(d) && row in DefaultRows(t) && t.default.Some?
    requires RolledOver(Months(), t, created, t')
    ensures MonthIndex(d) in created ==>
      && row !in t'.default.value
      && exists i :: 0 <= i < |t'.parts| && t'.parts[i].name == Slot(MonthIndex(d)) &&
           multiset(t'.parts[i].rows)[row] == multiset(t.default.value)[row]
    ensures MonthIndex(d) !in created ==> multiset(t'.default.value)[row] == multiset(t.default.value)[row]
  {
    var g, rows, month := Months(), t.default.value, MonthIndex(d);
    MonthOfCode(d);
    SlotCopies(g, rows, AsSet(created), row);
    if month in created {
      var k :| 0 <= k < |created| && created[k] == month;
      SlotCopies(g, rows, {month}, row);
      assert t'.parts[|t.parts| + k].name == Slot(month);
    }
  }

  /** A row of one of the slots is taken in all its copies, any other in none. */
  lemma SlotCopies<P>(g: Grid, rows: seq<Row<P>>, slots: set<int>, row: Row<P>)
    ensures SlotOf(g, row.key) in slots ==>
      multiset(InSlots(g, rows, slots))[row] == multiset(rows)[row] && row !in OutsideSlots(g, rows, slots)
    ensures SlotOf(g, row.key) !in slots ==> multiset(OutsideSlots(g, rows, slots))[row] == multiset(rows)[row]
  {
    SlotSplit(g, rows, slots);
    SlotMembers(g, rows, slots);
    assert row in multiset(InSlots(g, rows, slots)) <==> row in InSlots(g, rows, slots);
    assert row in multiset(OutsideSlots(g, rows, slots)) <==> row in OutsideSlots(g, rows, slots);
  }

  /** A table on which the run has committed needs nothing more for the same months. */
  lemma {:induction false} RolloverIsIdempotent<P>(t: Table<P>, current: int, ahead: nat)
    requires forall k :: current <= k <= current + ahead ==> Slot(k) in Names(t.parts)
    ensures MonthsToCreate(Names(t.parts), current, ahead) == []
  {
    if ahead > 0 {
      RolloverIsIdempotent(t, current, ahead - 1);
    }
  }

  /** Month i from today's on, where it is missing, can be created: it is free, and the month after it is a date. */
  ghost predicate CanAddMonth<P>(parts: seq<Part<P>>, today: Date, i: nat, reserved: set<RelName>) {
    HasMonth(Names(parts), AddMonths(today, i)) ||
    (AddMonths(today, i + 1).Some? && SlotFree(Months(), parts, reserved, MonthIndex(today) + i))
  }

  /**
   When a run commits: its last month is a date, every month name is readable, and each missing month
   can be added.
   */
  lemma CanCreateExactly<P>(parts: seq<Part<P>>, today: Date, ahead: nat, reserved: set<RelName>)
    requires Valid(today)
    ensures CanCreate(Months(), parts, MonthIndex(today), ahead, reserved) <==>
      && AddMonths(today, ahead).Some?
      && (forall name :: name in Names(parts) ==> !name.NoSlot?)
      && forall i: nat :: i <= ahead ==> CanAddMonth(parts, today, i, reserved)
  {
    var current := MonthIndex(today);
    var wanted := MonthsToCreate(Names(parts), current, ahead);
    MonthsToCreateSpec(Names(parts), current, ahead);
    WantedMonthsExist(today, ahead);
    assert NamesReadable(parts) <==> forall name :: name in Names(parts) ==> !name.NoSlot?;
    if AddMonths(today, ahead).Some? {
      forall i: nat | i <= ahead
        ensures CanAddMonth(parts, today, i, reserved) <==>
          current + i !in wanted || (current + i != MAX_MONTH && SlotFree(Months(), parts, reserved, current + i))
      {
        WantedMonthsExist(today, i);
        AddMonthsIndex(today, i);
      }
      forall k | k in wanted
        ensures k != MAX_MONTH && SlotFree(Months(), parts, reserved, k)
          <==> CanAddMonth(parts, today, k - current, reserved)
      {
        var i: nat := k - current;
        assert current + i == k;
      }
    }
  }

  predicate HasMonth(names: set<RelName>, month: Option<Date>) { month.Some? && Slot(MonthIndex(month.value)) in names }

  lemma MonthsAreThere<P>(t: Table<P>, today: Date, ahead: nat)
    requires Valid(today) && MonthIndex(today) + ahead <= MAX_MONTH
    requires forall k :: MonthIndex(today) <= k <= MonthIndex(today) + ahead ==> Slot(k) in Names(t.parts)
    ensures forall i: nat :: i <= ahead ==> HasMonth(Names(t.parts), AddMonths(today, i))
  {
    forall i: nat | i <= ahead
      ensures HasMonth(Names(t.parts), AddMonths(today, i))
    {
      WantedMonthsExist(today, i);
      AddMonthsIndex(today, i);
    }
  }

  /** daily_usage as the job sees it. */
  class DailyUsageTable<P> {
    var table: Table<P>

    constructor (table: Table<P>)
      ensures this.table == table
    {
      this.table := table;
    }

    method Rollover(today: Date, ahead: nat, reserved: set<RelName>, locked: bool) returns (committed: bool)
      requires Valid(today) && Legal(table)
      modifies this
      ensures Legal(table) && Contents(table) == old(Contents(table))
      ensures committed <==> locked && CanCreate(Months(), old(table.parts), MonthIndex(today), ahead, reserved)
      ensures !committed ==> table == old(table)
      ensures committed ==>
        && RolledOver(Months(), old(table), MonthsToCreate(Names(old(table.parts)), MonthIndex(today), ahead), table)
        && MonthsToCreate(Names(table.parts), MonthIndex(today), ahead) == []
        && forall i: nat :: i <= ahead ==> HasMonth(Names(table.parts), AddMonths(today, i))
      ensures MonthsToCreate(Names(old(table.parts)), MonthIndex(today), ahead) == [] ==> table == old(table)
    {
      if !locked {
        return false;
      }
      var outcome := RolloverTx(table, MonthIndex(today), ahead, reserved);
      if outcome.Failed? {
        return false;
      }
      table := outcome.table;
      MonthsAreThere(table, today, ahead);
      RolloverIsIdempotent(table, MonthIndex(today), ahead);
      return true;
    }
  }
}
