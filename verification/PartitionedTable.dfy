/**
 Range-partitioned Postgres tables, as the two partition jobs of services/pyjob see them.

 A table is the list of its range partitions plus an optional DEFAULT partition. The SQL
 statements the jobs issue are functions from a table to the changed table, or to the error
 Postgres raises. A job works on a copy and publishes it only when every statement succeeded,
 which is what its enclosing transaction does.

 Partition keys are integers: microseconds since the epoch for usage_events, the order-preserving
 date code of module MonthlyRollover for daily_usage.
 */
module PartitionedTable {
  import opened Options
  import opened Ordering
  import opened Sequences

  datatype Row<P> = Row(key: int, data: P)

  /**
   Slot(k) is the canonical name of the k-th day (or month), Convert(i) is ue_convert_i, NoSlot a name
   shaped like a slot's that names none (daily_usage_2026_13).
   */
  datatype RelName = Slot(k: int) | Convert(i: int) | NoSlot(text: string) | Other(text: string)

  /** A missing lower (upper) bound is MINVALUE (MAXVALUE). */
  datatype Part<P> = Part(name: RelName, lower: Option<int>, upper: Option<int>, rows: seq<Row<P>>) {
    predicate Holds(key: int) {
      && (lower.None? || lower.value <= key)
      && (upper.None? || key < upper.value)
    }

    predicate Meets(lo: int, hi: int) {
      && (lower.None? || lower.value < hi)
      && (upper.None? || lo < upper.value)
    }
  }

  datatype Table<P> = Table(parts: seq<Part<P>>, default: Option<seq<Row<P>>>)

  datatype SqlError = NameTaken | RangeOverlaps | DefaultHoldsRows | NoPartition

  /** Why a job's transaction is rolled back: a statement fails, or Python has no such date. */
  datatype Error = Sql(error: SqlError) | OutsideCalendar

  datatype Result<T> = Ok(value: T) | Err(error: SqlError)

  // ---------------------------------------------------------------------------------------
  // Grids: the days (months) a job partitions by
  // ---------------------------------------------------------------------------------------

  /** Slot k spans the keys from lower(k) up to lower(k + 1); slotOf names the slot of a key. */
  datatype RawGrid = Grid(lower: int -> int, slotOf: int -> int)

  ghost predicate Tiles(g: RawGrid) {
    && (forall k :: g.lower(k) < g.lower(k + 1))
    && (forall k, key :: InSlot(g, k, key) <==> g.slotOf(key) == k)
  }

  predicate InSlot(g: RawGrid, k: int, key: int) { g.lower(k) <= key < g.lower(k + 1) }

  type Grid = g: RawGrid | Tiles(g) witness Grid(k => k, key => key)

  function Lower(g: Grid, k: int): int { g.lower(k) }

  function SlotOf(g: Grid, key: int): int { g.slotOf(key) }

  lemma SlotRange(g: Grid, k: int, key: int)
    ensures Lower(g, k) <= key < Lower(g, k + 1) <==> SlotOf(g, key) == k
    ensures Lower(g, k) < Lower(g, k + 1)
  {
    assert InSlot(g, k, key) <==> g.slotOf(key) == k;
  }

  /** Two slots whose ranges overlap are the same slot. */
  lemma SlotsMeet(g: Grid, k: int, l: int)
    ensures Lower(g, k) < Lower(g, l + 1) && Lower(g, l) < Lower(g, k + 1) <==> k == l
  {
    SlotRange(g, k, Lower(g, l));
    SlotRange(g, l, Lower(g, k));
    SlotRange(g, l, Lower(g, l));
    SlotRange(g, k, Lower(g, k));
  }

  /** One slot of the grid, named for that slot. */
  predicate Canonical<P>(g: Grid, p: Part<P>) {
    && p.name.Slot?
    && p.lower == Some(Lower(g, p.name.k))
    && p.upper == Some(Lower(g, p.name.k + 1))
  }

  lemma CanonicalHolds<P>(g: Grid, p: Part<P>, key: int)
    requires Canonical(g, p)
    ensures p.Holds(key) <==> p.name == Slot(SlotOf(g, key))
  {
    SlotRange(g, p.name.k, key);
  }

  // ---------------------------------------------------------------------------------------
  // What Postgres guarantees of a partitioned table
  // ---------------------------------------------------------------------------------------

  predicate NamesDistinct<P>(parts: seq<Part<P>>) {
    forall i, j :: 0 <= i < j < |parts| ==> parts[i].name != parts[j].name
  }

  ghost predicate RangesDisjoint<P>(parts: seq<Part<P>>) {
    forall i, j, key :: 0 <= i < j < |parts| && parts[i].Holds(key) ==> !parts[j].Holds(key)
  }

  ghost predicate RowsInRange<P>(p: Part<P>) {
    forall r :: r in p.rows ==> p.Holds(r.key)
  }

  /** Includes the DEFAULT constraint: its rows belong to no other partition. */
  ghost predicate Legal<P>(t: Table<P>) {
    && NamesDistinct(t.parts)
    && RangesDisjoint(t.parts)
    && (forall i :: 0 <= i < |t.parts| ==> RowsInRange(t.parts[i]))
    && (t.default.Some? ==>
          forall r, i :: r in t.default.value && 0 <= i < |t.parts| ==> !t.parts[i].Holds(r.key))
  }

  function Names<P>(parts: seq<Part<P>>): set<RelName> {
    set i | 0 <= i < |parts| :: parts[i].name
  }

  /** Every row stored in the partitions of the list. */
  ghost function PartRows<P>(parts: seq<Part<P>>): multiset<Row<P>> {
    if parts == [] then multiset{}
    else PartRows(parts[..|parts| - 1]) + multiset(parts[|parts| - 1].rows)
  }

  /** Every row a query on the parent table sees. */
  ghost function Contents<P>(t: Table<P>): multiset<Row<P>> {
    PartRows(t.parts) + if t.default.Some? then multiset(t.default.value) else multiset{}
  }

  lemma PartRowsLast<P>(parts: seq<Part<P>>, p: Part<P>)
    ensures PartRows(parts + [p]) == PartRows(parts) + multiset(p.rows)
  {
    assert (parts + [p])[..|parts|] == parts;
  }

  lemma {:induction false} PartRowsConcat<P>(a: seq<Part<P>>, b: seq<Part<P>>)
    ensures PartRows(a + b) == PartRows(a) + PartRows(b)
  {
    if b == [] {
      assert a + b == a;
    } else {
      var init, last := b[..|b| - 1], b[|b| - 1];
      PartRowsConcat(a, init);
      assert b == init + [last];
      PartRowsGrow(a, init, last);
    }
  }

  lemma PartRowsGrow<P>(a: seq<Part<P>>, b: seq<Part<P>>, p: Part<P>)
    requires PartRows(a + b) == PartRows(a) + PartRows(b)
    ensures PartRows(a + (b + [p])) == PartRows(a) + PartRows(b + [p])
  {
    Associates(a, b, [p]);
    PartRowsLast(a + b, p);
    PartRowsLast(b, p);
  }

  lemma PartRowsOne<P>(p: Part<P>)
    ensures PartRows([p]) == multiset(p.rows)
  {
    assert [p][..0] == [];
  }

  lemma PartRowsSplit<P>(parts: seq<Part<P>>, i: nat)
    requires i < |parts|
    ensures PartRows(parts) == PartRows(parts[..i] + parts[i + 1..]) + multiset(parts[i].rows)
  {
    PartRowsMiddle(parts[..i], parts[i], parts[i + 1..]);
    SplitAt(parts, i);
  }

  lemma PartRowsMiddle<P>(a: seq<Part<P>>, p: Part<P>, b: seq<Part<P>>)
    ensures PartRows(a + ([p] + b)) == PartRows(a + b) + multiset(p.rows)
  {
    PartRowsConcat(a, [p] + b);
    PartRowsConcat([p], b);
    PartRowsConcat(a, b);
    PartRowsOne(p);
  }

  lemma PartRowsUpdate<P>(parts: seq<Part<P>>, i: nat, p: Part<P>, added: seq<Row<P>>)
    requires i < |parts| && p.rows == parts[i].rows + added
    ensures PartRows(parts[i := p]) == PartRows(parts) + multiset(added)
  {
    PartRowsSplit(parts, i);
    PartRowsSplit(parts[i := p], i);
    assert parts[i := p][..i] == parts[..i];
    assert parts[i := p][i + 1..] == parts[i + 1..];
  }

  // ---------------------------------------------------------------------------------------
  // The statements
  // ---------------------------------------------------------------------------------------

  /** CREATE TABLE name PARTITION OF parent FOR VALUES FROM (lo) TO (hi). */
  function CreatePart<P>(t: Table<P>, reserved: set<RelName>, name: RelName, lo: int, hi: int): Result<Table<P>> {
    if name in reserved || name in Names(t.parts) then Err(NameTaken)
    else if exists i :: 0 <= i < |t.parts| && t.parts[i].Meets(lo, hi) then Err(RangeOverlaps)
    else if t.default.Some? && exists i :: 0 <= i < |t.default.value| && lo <= t.default.value[i].key < hi then
      Err(DefaultHoldsRows)
    else Ok(t.(parts := t.parts + [Part(name, Some(lo), Some(hi), [])]))
  }

  lemma CreatePartKeepsLegal<P>(t: Table<P>, reserved: set<RelName>, name: RelName, lo: int, hi: int)
    requires Legal(t) && lo < hi
    requires CreatePart(t, reserved, name, lo, hi).Ok?
    ensures Legal(CreatePart(t, reserved, name, lo, hi).value)
    ensures Contents(CreatePart(t, reserved, name, lo, hi).value) == Contents(t)
  {
    var p: Part<P> := Part(name, Some(lo), Some(hi), []);
    var t' := CreatePart(t, reserved, name, lo, hi).value;
    assert t'.parts == t.parts + [p];
    assert t'.parts[..|t'.parts| - 1] == t.parts;
    forall i, key | 0 <= i < |t.parts| && t.parts[i].Holds(key)
      ensures !p.Holds(key)
    {
      assert !t.parts[i].Meets(lo, hi);
    }
    forall i | 0 <= i < |t.parts|
      ensures t.parts[i].name != name
    {
      assert t.parts[i].name in Names(t.parts);
    }
  }

  /** Index of the partition that holds the key, |parts| when there is none. */
  function Route<P>(parts: seq<Part<P>>, key: int): (i: nat)
    ensures i <= |parts|
    ensures i < |parts| ==> parts[i].Holds(key)
    ensures forall j :: 0 <= j < i ==> !parts[j].Holds(key)
  {
    if parts == [] then 0
    else if parts[0].Holds(key) then 0
    else 1 + Route(parts[1..], key)
  }

  function WithRow<P>(p: Part<P>, row: Row<P>): Part<P> { p.(rows := p.rows + [row]) }

  /** INSERT of one row through the parent. */
  function InsertRow<P>(t: Table<P>, row: Row<P>): Result<Table<P>> {
    var i := Route(t.parts, row.key);
    if i < |t.parts| then Ok(t.(parts := t.parts[i := WithRow(t.parts[i], row)]))
    else if t.default.Some? then Ok(t.(default := Some(t.default.value + [row])))
    else Err(NoPartition)
  }

  /** INSERT INTO parent SELECT: all rows or none. */
  function InsertRows<P>(t: Table<P>, rows: seq<Row<P>>): Result<Table<P>>
    decreases |rows|
  {
    if rows == [] then Ok(t)
    else
      match InsertRow(t, rows[0])
      case Ok(t') => InsertRows(t', rows[1..])
      case Err(e) => Err(e)
  }

  /** Same partitions with the same bounds, whatever they hold. */
  ghost predicate SameShape<P>(a: seq<Part<P>>, b: seq<Part<P>>) {
    && |a| == |b|
    && forall i :: 0 <= i < |a| ==> SameBounds(a[i], b[i])
  }

  predicate SameBounds<P>(p: Part<P>, q: Part<P>) {
    p.name == q.name && p.lower == q.lower && p.upper == q.upper
  }

  /** The rows, in order, that the parent routes to partition i. */
  function RoutedTo<P>(parts: seq<Part<P>>, rows: seq<Row<P>>, i: nat): seq<Row<P>> {
    if rows == [] then []
    else (if Route(parts, rows[0].key) == i then [rows[0]] else []) + RoutedTo(parts, rows[1..], i)
  }

  lemma RouteShape<P>(a: seq<Part<P>>, b: seq<Part<P>>, key: int)
    requires SameShape(a, b)
    ensures Route(a, key) == Route(b, key)
  {
    assert forall i :: 0 <= i < |a| ==> SameBounds(a[i], b[i]) && a[i].Holds(key) == b[i].Holds(key);
  }

  lemma {:induction false} RoutedToShape<P>(a: seq<Part<P>>, b: seq<Part<P>>, rows: seq<Row<P>>, i: nat)
    requires SameShape(a, b)
    ensures RoutedTo(a, rows, i) == RoutedTo(b, rows, i)
  {
    if rows != [] {
      RouteShape(a, b, rows[0].key);
      RoutedToShape(a, b, rows[1..], i);
    }
  }

  ghost predicate AppendsRouted<P>(t: Table<P>, rows: seq<Row<P>>, t': Table<P>) {
    && t'.default == t.default
    && SameShape(t'.parts, t.parts)
    && forall i :: 0 <= i < |t.parts| ==> t'.parts[i].rows == t.parts[i].rows + RoutedTo(t.parts, rows, i)
  }

  ghost predicate AllRoute<P>(parts: seq<Part<P>>, rows: seq<Row<P>>) {
    forall r :: r in rows ==> Route(parts, r.key) < |parts|
  }

  lemma InsertRowExact<P>(t: Table<P>, row: Row<P>)
    requires Route(t.parts, row.key) < |t.parts|
    ensures InsertRow(t, row).Ok?
    ensures AppendsRouted(t, [row], InsertRow(t, row).value)
  {
    forall i | 0 <= i < |t.parts|
      ensures RoutedTo(t.parts, [row], i) == if i == Route(t.parts, row.key) then [row] else []
    {
      RoutedToOne(t.parts, row, i);
    }
  }

  lemma RoutedToOne<P>(parts: seq<Part<P>>, row: Row<P>, i: nat)
    ensures RoutedTo(parts, [row], i) == if i == Route(parts, row.key) then [row] else []
  {
    assert [row][1..] == [];
  }

  lemma InsertRowContents<P>(t: Table<P>, row: Row<P>)
    requires Route(t.parts, row.key) < |t.parts|
    ensures Contents(InsertRow(t, row).value) == Contents(t) + multiset{row}
  {
    var k := Route(t.parts, row.key);
    PartRowsUpdate(t.parts, k, WithRow(t.parts[k], row), [row]);
  }

  lemma AppendsCompose<P>(t: Table<P>, rows: seq<Row<P>>, t1: Table<P>, t2: Table<P>)
    requires rows != []
    requires AppendsRouted(t, [rows[0]], t1) && AppendsRouted(t1, rows[1..], t2)
    ensures AppendsRouted(t, rows, t2)
  {
    assert SameShape(t2.parts, t.parts) by {
      forall i | 0 <= i < |t.parts|
        ensures SameBounds(t2.parts[i], t.parts[i])
      {
        assert SameBounds(t1.parts[i], t.parts[i]) && SameBounds(t2.parts[i], t1.parts[i]);
      }
    }
    forall i | 0 <= i < |t.parts|
      ensures t2.parts[i].rows == t.parts[i].rows + RoutedTo(t.parts, rows, i)
    {
      AppendsComposeAt(t, rows, t1, t2, i);
    }
  }

  lemma AppendsComposeAt<P>(t: Table<P>, rows: seq<Row<P>>, t1: Table<P>, t2: Table<P>, i: nat)
    requires rows != [] && i < |t.parts| == |t1.parts| == |t2.parts| && SameShape(t1.parts, t.parts)
    requires t1.parts[i].rows == t.parts[i].rows + RoutedTo(t.parts, [rows[0]], i)
    requires t2.parts[i].rows == t1.parts[i].rows + RoutedTo(t1.parts, rows[1..], i)
    ensures t2.parts[i].rows == t.parts[i].rows + RoutedTo(t.parts, rows, i)
  {
    RoutedToShape(t1.parts, t.parts, rows[1..], i);
    RoutedToCons(t.parts, rows, i);
    Associates(t.parts[i].rows, RoutedTo(t.parts, [rows[0]], i), RoutedTo(t.parts, rows[1..], i));
  }

  lemma RoutedToCons<P>(parts: seq<Part<P>>, rows: seq<Row<P>>, i: nat)
    requires rows != []
    ensures RoutedTo(parts, rows, i) == RoutedTo(parts, [rows[0]], i) + RoutedTo(parts, rows[1..], i)
  {
    RoutedToOne(parts, rows[0], i);
  }

  /** Inserting through the parent appends each row to the one partition that holds its key. */
  lemma {:induction false} InsertRowsExact<P>(t: Table<P>, rows: seq<Row<P>>)
    requires AllRoute(t.parts, rows)
    ensures InsertRows(t, rows).Ok?
    ensures AppendsRouted(t, rows, InsertRows(t, rows).value)
    ensures Contents(InsertRows(t, rows).value) == Contents(t) + multiset(rows)
    decreases |rows|
  {
    if rows == [] {
    } else {
      assert rows == [rows[0]] + rows[1..];
      InsertRowExact(t, rows[0]);
      InsertRowContents(t, rows[0]);
      var t1 := InsertRow(t, rows[0]).value;
      forall r | r in rows[1..]
        ensures Route(t1.parts, r.key) < |t1.parts|
      {
        RouteShape(t1.parts, t.parts, r.key);
      }
      InsertRowsExact(t1, rows[1..]);
      AppendsCompose(t, rows, t1, InsertRows(t1, rows[1..]).value);
    }
  }

  lemma {:induction false} RoutedToRows<P>(parts: seq<Part<P>>, rows: seq<Row<P>>, i: nat)
    ensures forall r :: r in RoutedTo(parts, rows, i) ==> r in rows && Route(parts, r.key) == i
  {
    if rows != [] {
      RoutedToRows(parts, rows[1..], i);
    }
  }

  lemma InsertRowsKeepsLegal<P>(t: Table<P>, rows: seq<Row<P>>)
    requires Legal(t) && AllRoute(t.parts, rows)
    ensures InsertRows(t, rows).Ok? && Legal(InsertRows(t, rows).value)
  {
    InsertRowsExact(t, rows);
    var t' := InsertRows(t, rows).value;
    forall i | 0 <= i < |t.parts|
      ensures t'.parts[i].name == t.parts[i].name
      ensures forall key :: t'.parts[i].Holds(key) <==> t.parts[i].Holds(key)
      ensures RowsInRange(t'.parts[i])
    {
      assert SameBounds(t'.parts[i], t.parts[i]);
      RoutedToRows(t.parts, rows, i);
    }
  }

  // ---------------------------------------------------------------------------------------
  // DELETE FROM default WHERE key in any of the slots
  // ---------------------------------------------------------------------------------------

  function InSlots<P>(g: Grid, rows: seq<Row<P>>, slots: set<int>): seq<Row<P>> {
    if rows == [] then []
    else (if SlotOf(g, rows[0].key) in slots then [rows[0]] else []) + InSlots(g, rows[1..], slots)
  }

  function OutsideSlots<P>(g: Grid, rows: seq<Row<P>>, slots: set<int>): seq<Row<P>> {
    if rows == [] then []
    else (if SlotOf(g, rows[0].key) in slots then [] else [rows[0]]) + OutsideSlots(g, rows[1..], slots)
  }

  lemma {:induction false} SlotMembers<P>(g: Grid, rows: seq<Row<P>>, slots: set<int>)
    ensures forall x :: x in InSlots(g, rows, slots) ==> x in rows && SlotOf(g, x.key) in slots
    ensures forall x :: x in OutsideSlots(g, rows, slots) ==> x in rows && SlotOf(g, x.key) !in slots
  {
    if rows != [] {
      SlotMembers(g, rows[1..], slots);
    }
  }

  lemma {:induction false} SlotSplit<P>(g: Grid, rows: seq<Row<P>>, slots: set<int>)
    ensures multiset(InSlots(g, rows, slots)) + multiset(OutsideSlots(g, rows, slots)) == multiset(rows)
  {
    if rows != [] {
      SlotSplit(g, rows[1..], slots);
      assert rows == [rows[0]] + rows[1..];
    }
  }

  // ---------------------------------------------------------------------------------------
  // Creating slots, shared by both jobs
  // ---------------------------------------------------------------------------------------

  /** Creating slot k neither reuses a name nor overlaps an existing range. */
  predicate SlotFree<P>(g: Grid, parts: seq<Part<P>>, reserved: set<RelName>, k: int) {
    && Slot(k) !in reserved
    && Slot(k) !in Names(parts)
    && forall i :: 0 <= i < |parts| ==> !parts[i].Meets(Lower(g, k), Lower(g, k + 1))
  }

  function EmptySlot<P>(g: Grid, k: int): Part<P> { Part(Slot(k), Some(Lower(g, k)), Some(Lower(g, k + 1)), []) }

  function EmptySlots<P>(g: Grid, slots: seq<int>): (r: seq<Part<P>>)
    ensures |r| == |slots|
    ensures forall i :: 0 <= i < |slots| ==> r[i] == EmptySlot(g, slots[i])
  {
    seq(|slots|, i requires 0 <= i < |slots| => EmptySlot(g, slots[i]))
  }

  /**
   CREATE TABLE for each slot. It succeeds exactly when every slot is free, provided no row of
   theirs is left in DEFAULT.
   */
  method CreateSlots<P>(g: Grid, t: Table<P>, reserved: set<RelName>, slots: seq<int>) returns (r: Result<Table<P>>)
    requires Legal(t) && Ascending(slots)
    requires t.default.Some? ==> forall x :: x in t.default.value ==> SlotOf(g, x.key) !in slots
    ensures r.Ok? <==> forall k :: k in slots ==> SlotFree(g, t.parts, reserved, k)
    ensures r.Ok? ==> r.value == WithSlots(g, t, slots)
    ensures r.Ok? ==> Legal(r.value) && Contents(r.value) == Contents(t)
  {
    var tx := t;
    assert EmptySlots<P>(g, []) == [] && t.parts + [] == t.parts && slots[..0] == [];
    for j := 0 to |slots|
      invariant tx == WithSlots(g, t, slots[..j])
      invariant Legal(tx) && Contents(tx) == Contents(t)
      invariant forall k :: k in slots[..j] ==> SlotFree(g, t.parts, reserved, k)
    {
      var k := slots[j];
      var created := CreatePart(tx, reserved, Slot(k), Lower(g, k), Lower(g, k + 1));
      SlotFreeStep(g, t, reserved, slots, j);
      if created.Err? {
        assert k in slots;
        return Err(created.error);
      }
      CreatedSlot(g, t, reserved, slots, j);
      tx := created.value;
    }
    assert slots[..|slots|] == slots;
    return Ok(tx);
  }

  function WithSlots<P>(g: Grid, t: Table<P>, slots: seq<int>): Table<P> {
    t.(parts := t.parts + EmptySlots(g, slots))
  }

  lemma CreatedSlot<P>(g: Grid, t: Table<P>, reserved: set<RelName>, slots: seq<int>, j: nat)
    requires j < |slots|
    requires Legal(WithSlots(g, t, slots[..j]))
    requires CreatePart(WithSlots(g, t, slots[..j]), reserved, Slot(slots[j]),
                        Lower(g, slots[j]), Lower(g, slots[j] + 1)).Ok?
    ensures
      var tx := WithSlots(g, t, slots[..j]);
      var tx' := CreatePart(tx, reserved, Slot(slots[j]), Lower(g, slots[j]), Lower(g, slots[j] + 1)).value;
      tx' == WithSlots(g, t, slots[..j + 1]) && Legal(tx') && Contents(tx') == Contents(tx)
    ensures forall k :: k in slots[..j + 1] ==> k in slots[..j] || k == slots[j]
  {
    var k := slots[j];
    var tx := WithSlots(g, t, slots[..j]);
    SlotRange(g, k, Lower(g, k));
    CreatePartKeepsLegal(tx, reserved, Slot(k), Lower(g, k), Lower(g, k + 1));
    assert slots[..j + 1] == slots[..j] + [k];
    assert EmptySlots<P>(g, slots[..j + 1]) == EmptySlots(g, slots[..j]) + [EmptySlot(g, k)];
    assert t.parts + EmptySlots(g, slots[..j + 1]) == tx.parts + [EmptySlot(g, k)];
  }

  /** With the slots before it created, slot j can be created exactly when it was free at the start. */
  lemma SlotFreeStep<P>(g: Grid, t: Table<P>, reserved: set<RelName>, slots: seq<int>, j: nat)
    requires j < |slots| && Ascending(slots)
    requires t.default.Some? ==> forall x :: x in t.default.value ==> SlotOf(g, x.key) !in slots
    ensures
      var tx := WithSlots(g, t, slots[..j]);
      var created := CreatePart(tx, reserved, Slot(slots[j]), Lower(g, slots[j]), Lower(g, slots[j] + 1));
      created.Ok? <==> SlotFree(g, t.parts, reserved, slots[j])
  {
    var k := slots[j];
    var tx := WithSlots(g, t, slots[..j]);
    NewSlotsApart(g, t, slots, j);
    DefaultApart(g, t, slots, j);
    assert forall i :: 0 <= i < |t.parts| ==> tx.parts[i] == t.parts[i];
    if Slot(k) in Names(tx.parts) {
      var i :| 0 <= i < |tx.parts| && tx.parts[i].name == Slot(k);
      assert t.parts[i].name in Names(t.parts);
    }
    if Slot(k) in Names(t.parts) {
      var i :| 0 <= i < |t.parts| && t.parts[i].name == Slot(k);
      assert tx.parts[i].name in Names(tx.parts);
    }
  }

  lemma NewSlotsApart<P>(g: Grid, t: Table<P>, slots: seq<int>, j: nat)
    requires j < |slots| && Ascending(slots)
    ensures
      var parts := WithSlots(g, t, slots[..j]).parts;
      forall i :: |t.parts| <= i < |parts| ==>
        parts[i].name != Slot(slots[j]) && !parts[i].Meets(Lower(g, slots[j]), Lower(g, slots[j] + 1))
  {
    var parts := WithSlots(g, t, slots[..j]).parts;
    forall i | |t.parts| <= i < |parts|
      ensures parts[i].name != Slot(slots[j]) && !parts[i].Meets(Lower(g, slots[j]), Lower(g, slots[j] + 1))
    {
      assert parts[i] == EmptySlot(g, slots[i - |t.parts|]);
      SlotsMeet(g, slots[i - |t.parts|], slots[j]);
    }
  }

  lemma DefaultApart<P>(g: Grid, t: Table<P>, slots: seq<int>, j: nat)
    requires j < |slots|
    requires t.default.Some? ==> forall x :: x in t.default.value ==> SlotOf(g, x.key) !in slots
    ensures t.default.Some? ==> forall i :: 0 <= i < |t.default.value| ==>
      !(Lower(g, slots[j]) <= t.default.value[i].key < Lower(g, slots[j] + 1))
  {
    if t.default.Some? {
      forall i | 0 <= i < |t.default.value|
        ensures !(Lower(g, slots[j]) <= t.default.value[i].key < Lower(g, slots[j] + 1))
      {
        SlotRange(g, slots[j], t.default.value[i].key);
        assert t.default.value[i] in t.default.value;
      }
    }
  }
}
