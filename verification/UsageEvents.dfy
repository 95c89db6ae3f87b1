/**
 Partition maintenance of usage_events (services/pyjob/jobs/daily_usage_consolidation.py):
 every partition that is not one IST day is detached, DEFAULT is emptied, the missing day
 partitions are created and the rows are restored through the parent, in one transaction.

 The results hold for every grid of days; IstDays is the grid the job uses.
 */
module UsageEvents {
  import opened Options
  import opened Ordering
  import opened PartitionedTable
  import opened Sequences

  const DAY_MICROS := 86_400_000_000
  const IST_OFFSET_MICROS := 19_800_000_000

  /** 0001-01-01 and 9999-12-31, the first and last of Python's dates, counted from 1970-01-01. */
  const FIRST_DAY := -719_162
  const LAST_DAY := 2_932_896

  function DaysInYears(years: nat): nat { 365 * years + years / 4 - years / 100 + years / 400 }

  /** 1969 years lie before 1970 and 9999 before the year 10000, with the Gregorian calendar's leap years. */
  lemma CalendarEnds()
    ensures FIRST_DAY + DaysInYears(1969) == 0
    ensures LAST_DAY == FIRST_DAY + DaysInYears(9999) - 1
  {
  }

  function IstDays(): Grid {
    Grid(d => d * DAY_MICROS - IST_OFFSET_MICROS, key => (key + IST_OFFSET_MICROS) / DAY_MICROS)
  }

  /**
   Clocks in India run five and a half hours ahead of UTC: at the instant key, in microseconds since
   1970-01-01 00:00 UTC, they show a time of that day, days counted from 1970-01-01.
   */
  predicate ShowsIstDay(key: int, day: int) {
    0 <= key + (5 * 60 + 30) * 60 * 1_000_000 - day * (24 * 60 * 60 * 1_000_000) < 24 * 60 * 60 * 1_000_000
  }

  /** The grid's slots are the days on the clock. */
  lemma IstSlots(key: int, day: int)
    ensures SlotOf(IstDays(), key) == day <==> ShowsIstDay(key, day)
  {
  }

  /** In the partition named for a day lie the instants of that day, and no others. */
  lemma IstPartitionHolds<P>(p: Part<P>, key: int)
    requires Canonical(IstDays(), p)
    ensures p.Holds(key) <==> ShowsIstDay(key, p.name.k)
  {
    CanonicalHolds(IstDays(), p, key);
    IstSlots(key, p.name.k);
  }

  // ---------------------------------------------------------------------------------------
  // Classifying the partitions
  // ---------------------------------------------------------------------------------------

  ghost predicate AllCanonical<P>(g: Grid, parts: seq<Part<P>>) {
    forall i :: 0 <= i < |parts| ==> Canonical(g, parts[i])
  }

  function DayParts<P>(g: Grid, parts: seq<Part<P>>): seq<Part<P>> {
    if parts == [] then []
    else
      var last := parts[|parts| - 1];
      DayParts(g, parts[..|parts| - 1]) + if Canonical(g, last) then [last] else []
  }

  /** The partitions to convert. */
  function OtherParts<P>(g: Grid, parts: seq<Part<P>>): seq<Part<P>> {
    if parts == [] then []
    else
      var last := parts[|parts| - 1];
      OtherParts(g, parts[..|parts| - 1]) + if Canonical(g, last) then [] else [last]
  }

  lemma {:induction false} SplitConservesRows<P>(g: Grid, parts: seq<Part<P>>)
    ensures PartRows(parts) == PartRows(DayParts(g, parts)) + PartRows(OtherParts(g, parts))
  {
    if parts != [] {
      var init, last := parts[..|parts| - 1], parts[|parts| - 1];
      SplitConservesRows(g, init);
      PartRowsAppend(DayParts(g, init), last, Canonical(g, last));
      PartRowsAppend(OtherParts(g, init), last, !Canonical(g, last));
    }
  }

  lemma PartRowsAppend<P>(parts: seq<Part<P>>, p: Part<P>, add: bool)
    ensures PartRows(parts + if add then [p] else []) == PartRows(parts) + if add then multiset(p.rows) else multiset{}
  {
    assert parts + [] == parts;
    assert (parts + [p])[..|parts|] == parts;
  }

  lemma {:induction false} DayPartAt<P>(g: Grid, parts: seq<Part<P>>, i: nat) returns (j: nat)
    requires i < |DayParts(g, parts)|
    ensures j < |parts| && parts[j] == DayParts(g, parts)[i] && Canonical(g, parts[j])
  {
    if i == |DayParts(g, parts[..|parts| - 1])| {
      j := |parts| - 1;
    } else {
      j := DayPartAt(g, parts[..|parts| - 1], i);
    }
  }

  lemma {:induction false} OtherPartAt<P>(g: Grid, parts: seq<Part<P>>, i: nat) returns (j: nat)
    requires i < |OtherParts(g, parts)|
    ensures j < |parts| && parts[j] == OtherParts(g, parts)[i] && !Canonical(g, parts[j])
  {
    if i == |OtherParts(g, parts[..|parts| - 1])| {
      j := |parts| - 1;
    } else {
      j := OtherPartAt(g, parts[..|parts| - 1], i);
    }
  }

  lemma {:induction false} SplitIndex<P>(g: Grid, parts: seq<Part<P>>, j: nat) returns (i: nat)
    requires j < |parts|
    ensures Canonical(g, parts[j]) ==> i < |DayParts(g, parts)| && DayParts(g, parts)[i] == parts[j]
    ensures !Canonical(g, parts[j]) ==> i < |OtherParts(g, parts)| && OtherParts(g, parts)[i] == parts[j]
  {
    var init := parts[..|parts| - 1];
    if j == |parts| - 1 {
      i := if Canonical(g, parts[j]) then |DayParts(g, init)| else |OtherParts(g, init)|;
    } else {
      i := SplitIndex(g, init, j);
    }
  }

  /** Keeping a sublist keeps the table legal. */
  lemma {:induction false} DayPartsLegal<P>(g: Grid, parts: seq<Part<P>>)
    requires NamesDistinct(parts) && RangesDisjoint(parts)
    ensures NamesDistinct(DayParts(g, parts)) && RangesDisjoint(DayParts(g, parts))
  {
    if parts != [] {
      var init, last := parts[..|parts| - 1], parts[|parts| - 1];
      var days := DayParts(g, init);
      DayPartsLegal(g, init);
      forall i | 0 <= i < |days|
        ensures days[i].name != last.name
        ensures forall key :: days[i].Holds(key) ==> !last.Holds(key)
      {
        var j := DayPartAt(g, init, i);
        assert parts[j] == days[i] && parts[|parts| - 1] == last;
      }
      assert days + [] == days;
      AppendPart(days, last);
    }
  }

  lemma AppendPart<P>(parts: seq<Part<P>>, p: Part<P>)
    requires NamesDistinct(parts) && RangesDisjoint(parts)
    requires forall i :: 0 <= i < |parts| ==> parts[i].name != p.name
    requires forall i, key :: 0 <= i < |parts| && parts[i].Holds(key) ==> !p.Holds(key)
    ensures NamesDistinct(parts + [p]) && RangesDisjoint(parts + [p])
  {
  }

  lemma {:induction false} AllCanonicalSplit<P>(g: Grid, parts: seq<Part<P>>)
    requires AllCanonical(g, parts)
    ensures DayParts(g, parts) == parts && OtherParts(g, parts) == []
  {
    if parts != [] {
      assert parts == parts[..|parts| - 1] + [parts[|parts| - 1]];
      AllCanonicalSplit(g, parts[..|parts| - 1]);
    }
  }

  // ---------------------------------------------------------------------------------------
  // The order of conversion
  // ---------------------------------------------------------------------------------------

  /**
   The partitions to convert, in the order the job takes them. The job sorts their names; what is
   proved holds for every order.
   */
  ghost predicate ConversionOrder<P>(g: Grid, parts: seq<Part<P>>, others: seq<Part<P>>) {
    multiset(others) == multiset(OtherParts(g, parts))
  }

  lemma PartRowsWithout<P>(parts: seq<Part<P>>, j: nat)
    requires j < |parts|
    ensures PartRows(parts) == PartRows(Without(parts, j)) + multiset(parts[j].rows)
  {
    PartRowsSplit(parts, j);
  }

  lemma WithoutFirst<T>(s: seq<T>)
    requires s != []
    ensures Without(s, 0) == s[1..]
  {
  }

  lemma {:induction false} ReorderedRows<P>(a: seq<Part<P>>, b: seq<Part<P>>)
    requires multiset(a) == multiset(b)
    ensures PartRows(a) == PartRows(b)
    decreases |a|
  {
    if a == [] {
      assert |multiset(b)| == 0;
    } else {
      var j := FindFirst(a, b);
      WithoutFirst(a);
      ReorderedRows(a[1..], Without(b, j));
      PartRowsWithout(b, j);
      PartRowsWithout(a, 0);
    }
  }

  lemma ReorderedAt<P>(a: seq<Part<P>>, b: seq<Part<P>>, i: nat) returns (j: nat)
    requires multiset(a) == multiset(b) && i < |a|
    ensures j < |b| && b[j] == a[i]
  {
    assert a[i] in multiset(b);
    j :| 0 <= j < |b| && b[j] == a[i];
  }

  lemma ReorderedNames<P>(a: seq<Part<P>>, b: seq<Part<P>>)
    requires multiset(a) == multiset(b)
    ensures Names(a) == Names(b)
  {
    forall i | 0 <= i < |a|
      ensures a[i].name in Names(b)
    {
      var j := ReorderedAt(a, b, i);
    }
    forall i | 0 <= i < |b|
      ensures b[i].name in Names(a)
    {
      var j := ReorderedAt(b, a, i);
    }
  }

  lemma ReorderedDays<P>(g: Grid, a: seq<Part<P>>, b: seq<Part<P>>)
    requires multiset(a) == multiset(b)
    ensures PartDays(g, a) <= PartDays(g, b)
  {
    forall i, k | 0 <= i < |a| && 0 <= k < |a[i].rows|
      ensures SlotOf(g, a[i].rows[k].key) in PartDays(g, b)
    {
      var j := ReorderedAt(a, b, i);
      assert b[j].rows[k] == a[i].rows[k];
    }
  }

  lemma {:induction false} ReorderedDistinct<P>(a: seq<Part<P>>, b: seq<Part<P>>)
    requires multiset(a) == multiset(b) && NamesDistinct(b)
    ensures NamesDistinct(a)
    decreases |a|
  {
    if a != [] {
      var j := FindFirst(a, b);
      var rest := Without(b, j);
      assert forall k :: 0 <= k < |rest| ==> rest[k] == b[if k < j then k else k + 1];
      ReorderedDistinct(a[1..], rest);
      forall i | 1 <= i < |a|
        ensures a[i].name != a[0].name
      {
        assert a[1..][i - 1] == a[i];
        var k := ReorderedAt(a[1..], rest, i - 1);
      }
    }
  }

  // ---------------------------------------------------------------------------------------
  // Detaching: ALTER TABLE ... DETACH PARTITION, then RENAME TO ue_convert_i
  // ---------------------------------------------------------------------------------------

  function Detach<P>(parts: seq<Part<P>>, names: set<RelName>): seq<Part<P>> {
    if parts == [] then []
    else
      var last := parts[|parts| - 1];
      Detach(parts[..|parts| - 1], names) + if last.name in names then [] else [last]
  }

  lemma {:induction false} DetachNothing<P>(parts: seq<Part<P>>)
    ensures Detach(parts, {}) == parts
  {
    if parts != [] {
      assert parts == parts[..|parts| - 1] + [parts[|parts| - 1]];
      DetachNothing(parts[..|parts| - 1]);
    }
  }

  lemma {:induction false} DetachTwice<P>(parts: seq<Part<P>>, a: set<RelName>, b: set<RelName>)
    ensures Detach(Detach(parts, a), b) == Detach(parts, a + b)
  {
    if parts != [] {
      var init, last := parts[..|parts| - 1], parts[|parts| - 1];
      DetachTwice(init, a, b);
      if last.name !in a {
        assert (Detach(init, a) + [last])[..|Detach(init, a)|] == Detach(init, a);
      } else {
        assert Detach(init, a) + [] == Detach(init, a);
      }
    }
  }

  lemma {:induction false} DetachMembers<P>(parts: seq<Part<P>>, names: set<RelName>)
    ensures forall p :: p in Detach(parts, names) <==> p in parts && p.name !in names
  {
    if parts != [] {
      var init, last := parts[..|parts| - 1], parts[|parts| - 1];
      assert parts == init + [last];
      DetachMembers(init, names);
    }
  }

  /** Detaching every partition to convert leaves the day partitions, in order. */
  lemma {:induction false} DetachOthers<P>(g: Grid, parts: seq<Part<P>>, names: set<RelName>)
    requires forall i :: 0 <= i < |parts| ==> (parts[i].name in names <==> !Canonical(g, parts[i]))
    ensures Detach(parts, names) == DayParts(g, parts)
  {
    if parts != [] {
      DetachOthers(g, parts[..|parts| - 1], names);
    }
  }

  lemma OtherNames<P>(g: Grid, parts: seq<Part<P>>)
    requires NamesDistinct(parts)
    ensures forall i :: 0 <= i < |parts| ==>
      (parts[i].name in Names(OtherParts(g, parts)) <==> !Canonical(g, parts[i]))
  {
    var others := OtherParts(g, parts);
    forall i | 0 <= i < |parts| && !Canonical(g, parts[i])
      ensures parts[i].name in Names(others)
    {
      var j := SplitIndex(g, parts, i);
    }
    forall i, j | 0 <= i < |parts| && Canonical(g, parts[i]) && 0 <= j < |others|
      ensures others[j].name != parts[i].name
    {
      var l := OtherPartAt(g, parts, j);
      assert l != i;
    }
  }

  lemma AllOthersDetached<P>(g: Grid, parts: seq<Part<P>>, others: seq<Part<P>>)
    requires NamesDistinct(parts) && ConversionOrder(g, parts, others)
    ensures Detach(parts, Names(others)) == DayParts(g, parts)
  {
    ReorderedNames(others, OtherParts(g, parts));
    OtherNames(g, parts);
    DetachOthers(g, parts, Names(OtherParts(g, parts)));
  }

  /**
   Each rename target is free when its turn comes: not a relation outside the table, nor the name
   of a partition that is still to be renamed (an earlier one already carries another name).
   */
  predicate RenamesFree<P>(others: seq<Part<P>>, reserved: set<RelName>) {
    forall i :: 0 <= i < |others| ==> RenameFree(others, reserved, i)
  }

  predicate RenameFree<P>(others: seq<Part<P>>, reserved: set<RelName>, i: int) {
    && Convert(i) !in reserved
    && forall j :: 0 <= i <= j < |others| ==> others[j].name != Convert(i)
  }

  /** The names ALTER TABLE ... RENAME finds taken when partition i is renamed. */
  function NamesLeft<P>(parts: seq<Part<P>>, reserved: set<RelName>, detaching: RelName): set<RelName> {
    reserved + Names(parts) + {detaching}
  }

  lemma NamesAfterDetach<P>(parts: seq<Part<P>>, gone: set<RelName>)
    ensures Names(Detach(parts, gone)) == Names(parts) - gone
  {
    var left := Detach(parts, gone);
    DetachMembers(parts, gone);
    forall n | n in Names(left) ensures n in Names(parts) - gone {
      var k :| 0 <= k < |left| && left[k].name == n;
      assert left[k] in left;
      var l :| 0 <= l < |parts| && parts[l] == left[k];
    }
    forall n | n in Names(parts) - gone ensures n in Names(left) {
      var l :| 0 <= l < |parts| && parts[l].name == n;
      assert parts[l] in parts;
      var k :| 0 <= k < |left| && left[k] == parts[l];
    }
  }

  lemma ConvertNamesAreOthers<P>(g: Grid, parts: seq<Part<P>>, i: int)
    ensures Convert(i) in Names(parts) <==> Convert(i) in Names(OtherParts(g, parts))
  {
    var others := OtherParts(g, parts);
    if Convert(i) in Names(parts) {
      var l :| 0 <= l < |parts| && parts[l].name == Convert(i);
      var k := SplitIndex(g, parts, l);
    }
    if Convert(i) in Names(others) {
      var k :| 0 <= k < |others| && others[k].name == Convert(i);
      var l := OtherPartAt(g, parts, k);
    }
  }

  /** What the loop needs to know of the names. */
  ghost predicate CanConvert<P>(g: Grid, parts: seq<Part<P>>, others: seq<Part<P>>) {
    NamesDistinct(parts) && NamesDistinct(others) && Names(others) == Names(OtherParts(g, parts))
  }

  lemma OrderCanConvert<P>(g: Grid, parts: seq<Part<P>>, others: seq<Part<P>>)
    requires NamesDistinct(parts) && ConversionOrder(g, parts, others)
    ensures CanConvert(g, parts, others)
  {
    ReorderedNames(others, OtherParts(g, parts));
    OthersDistinct(g, parts);
    ReorderedDistinct(others, OtherParts(g, parts));
  }

  /** When partition i is renamed, the names still taken are exactly those RenamesFree rules out. */
  lemma RenameStep<P>(g: Grid, t: Table<P>, others: seq<Part<P>>, reserved: set<RelName>, i: nat)
    requires CanConvert(g, t.parts, others) && i < |others|
    ensures
      var left := Detach(t.parts, Names(others[..i + 1]));
      Convert(i) in NamesLeft(left, reserved, others[i].name) <==> !RenameFree(others, reserved, i)
  {
    NamesAfterDetach(t.parts, Names(others[..i + 1]));
    NamesNext(others, i);
    ConvertNamesAreOthers(g, t.parts, i);
    TakenLater(others, i);
  }

  lemma TakenLater<P>(others: seq<Part<P>>, i: nat)
    requires NamesDistinct(others) && i < |others|
    ensures Convert(i) in Names(others) && Convert(i) !in Names(others[..i]) <==>
            exists j :: i <= j < |others| && others[j].name == Convert(i)
  {
    forall j | 0 <= j < i
      ensures others[j].name in Names(others[..i])
    {
      assert others[..i][j] == others[j];
    }
    if Convert(i) in Names(others[..i]) {
      var j :| 0 <= j < i && others[..i][j].name == Convert(i);
      assert others[j].name == Convert(i);
    }
  }

  lemma {:induction false} OthersDistinct<P>(g: Grid, parts: seq<Part<P>>)
    requires NamesDistinct(parts)
    ensures NamesDistinct(OtherParts(g, parts))
  {
    if parts != [] {
      var init, last := parts[..|parts| - 1], parts[|parts| - 1];
      var others := OtherParts(g, init);
      OthersDistinct(g, init);
      forall i | 0 <= i < |others|
        ensures others[i].name != last.name
      {
        var j := OtherPartAt(g, init, i);
        assert parts[j] == others[i] && parts[|parts| - 1] == last;
      }
    }
  }

  function RowDays<P>(g: Grid, rows: seq<Row<P>>): set<int> {
    set i | 0 <= i < |rows| :: SlotOf(g, rows[i].key)
  }

  function PartDays<P>(g: Grid, parts: seq<Part<P>>): set<int> {
    set i, j | 0 <= i < |parts| && 0 <= j < |parts[i].rows| :: SlotOf(g, parts[i].rows[j].key)
  }

  datatype Detached<P> = Detached(table: Table<P>, scratch: seq<seq<Row<P>>>, days: set<int>)

  function RowLists<P>(parts: seq<Part<P>>): (r: seq<seq<Row<P>>>)
    ensures |r| == |parts| && forall i :: 0 <= i < |parts| ==> r[i] == parts[i].rows
  {
    seq(|parts|, i requires 0 <= i < |parts| => parts[i].rows)
  }

  /** The conversion loop. It fails exactly when a rename target is taken. */
  method ConvertOthers<P>(g: Grid, t: Table<P>, others: seq<Part<P>>, reserved: set<RelName>)
    returns (r: Result<Detached<P>>)
    requires Legal(t) && ConversionOrder(g, t.parts, others)
    ensures r.Ok? <==> RenamesFree(others, reserved)
    ensures r.Ok? ==>
      && r.value.table == t.(parts := DayParts(g, t.parts))
      && r.value.scratch == RowLists(others)
      && r.value.days == PartDays(g, OtherParts(g, t.parts))
  {
    OrderCanConvert(g, t.parts, others);
    r := ConvertInOrder(g, t, others, reserved);
    DetachedAtEnds(g, t, others);
  }

  method ConvertInOrder<P>(g: Grid, t: Table<P>, others: seq<Part<P>>, reserved: set<RelName>)
    returns (r: Result<Detached<P>>)
    requires CanConvert(g, t.parts, others)
    ensures r.Ok? <==> RenamesFree(others, reserved)
    ensures r.Ok? ==> r.value == DetachedFirst(g, t, others, |others|)
  {
    var acc := Detached(t, [], {});
    DetachedAtStart(g, t, others);
    for i := 0 to |others|
      invariant acc == DetachedFirst(g, t, others, i)
      invariant forall k :: 0 <= k < i ==> RenameFree(others, reserved, k)
    {
      acc := DetachOne(g, acc, others[i]);
      DetachedNext(g, t, others, i);
      RenameStep(g, t, others, reserved, i);
      if Convert(i) in NamesLeft(acc.table.parts, reserved, others[i].name) {
        return Err(NameTaken);
      }
    }
    return Ok(acc);
  }

  lemma DetachedAtStart<P>(g: Grid, t: Table<P>, others: seq<Part<P>>)
    ensures DetachedFirst(g, t, others, 0) == Detached(t, [], {})
  {
    DetachNothing(t.parts);
    assert others[..0] == [] && Names(others[..0]) == {};
  }

  function DetachOne<P>(g: Grid, acc: Detached<P>, other: Part<P>): Detached<P> {
    Detached(acc.table.(parts := Detach(acc.table.parts, {other.name})),
             acc.scratch + [other.rows], acc.days + RowDays(g, other.rows))
  }

  /** The state once the first i partitions to convert are detached. */
  function DetachedFirst<P>(g: Grid, t: Table<P>, others: seq<Part<P>>, i: nat): Detached<P>
    requires i <= |others|
  {
    Detached(t.(parts := Detach(t.parts, Names(others[..i]))), RowLists(others[..i]), PartDays(g, others[..i]))
  }

  lemma DetachedNext<P>(g: Grid, t: Table<P>, others: seq<Part<P>>, i: nat)
    requires i < |others|
    ensures DetachOne(g, DetachedFirst(g, t, others, i), others[i]) == DetachedFirst(g, t, others, i + 1)
  {
    DetachNext(t.parts, others, i);
    PrefixStep(g, others, i);
  }

  lemma DetachedAtEnds<P>(g: Grid, t: Table<P>, others: seq<Part<P>>)
    requires NamesDistinct(t.parts) && ConversionOrder(g, t.parts, others)
    ensures DetachedFirst(g, t, others, |others|)
         == Detached(t.(parts := DayParts(g, t.parts)), RowLists(others), PartDays(g, OtherParts(g, t.parts)))
  {
    assert others[..|others|] == others;
    AllOthersDetached(g, t.parts, others);
    ReorderedDays(g, others, OtherParts(g, t.parts));
    ReorderedDays(g, OtherParts(g, t.parts), others);
  }

  lemma NamesNext<P>(others: seq<Part<P>>, i: nat)
    requires i < |others|
    ensures Names(others[..i + 1]) == Names(others[..i]) + {others[i].name}
  {
    var a, b := others[..i], others[..i + 1];
    assert b == a + [others[i]];
    assert b[i] == others[i];
    forall n | n in Names(a) ensures n in Names(b) {
      var k :| 0 <= k < |a| && a[k].name == n;
      assert b[k].name == n;
    }
  }

  lemma DetachNext<P>(parts: seq<Part<P>>, others: seq<Part<P>>, i: nat)
    requires i < |others|
    ensures Detach(Detach(parts, Names(others[..i])), {others[i].name}) == Detach(parts, Names(others[..i + 1]))
  {
    DetachTwice(parts, Names(others[..i]), {others[i].name});
    NamesNext(others, i);
  }

  lemma PrefixStep<P>(g: Grid, others: seq<Part<P>>, i: nat)
    requires i < |others|
    ensures RowLists(others[..i + 1]) == RowLists(others[..i]) + [others[i].rows]
    ensures PartDays(g, others[..i + 1]) == PartDays(g, others[..i]) + RowDays(g, others[i].rows)
  {
    var a, b := others[..i], others[..i + 1];
    assert b == a + [others[i]];
    assert b[i] == others[i];
    forall d | d in PartDays(g, a) ensures d in PartDays(g, b) {
      var k, l :| 0 <= k < |a| && 0 <= l < |a[k].rows| && SlotOf(g, a[k].rows[l].key) == d;
      assert b[k] == a[k];
    }
    forall d | d in RowDays(g, others[i].rows) ensures d in PartDays(g, b) {
      var l :| 0 <= l < |others[i].rows| && SlotOf(g, others[i].rows[l].key) == d;
      assert b[i].rows[l] == others[i].rows[l];
    }
  }

  // ---------------------------------------------------------------------------------------
  // The days to create
  // ---------------------------------------------------------------------------------------

  function DayNames<P>(g: Grid, parts: seq<Part<P>>): set<int> {
    set i | 0 <= i < |parts| && Canonical(g, parts[i]) :: parts[i].name.k
  }

  function DaysAhead(today: int, ahead: nat): (days: set<int>)
    ensures forall d :: d in days <==> today <= d <= today + ahead
  {
    if ahead == 0 then {today} else DaysAhead(today, ahead - 1) + {today + ahead}
  }

  function DefaultDays<P>(g: Grid, t: Table<P>): set<int> {
    if t.default.Some? then RowDays(g, t.default.value) else {}
  }

  /** Today and the days ahead, and every day with rows to restore. */
  function WantedDays<P>(g: Grid, t: Table<P>, today: int, ahead: nat): set<int> {
    DaysAhead(today, ahead) + PartDays(g, OtherParts(g, t.parts)) + DefaultDays(g, t)
  }

  function MissingDays<P>(g: Grid, t: Table<P>, today: int, ahead: nat): set<int> {
    WantedDays(g, t, today, ahead) - DayNames(g, t.parts)
  }

  predicate AreDates(days: set<int>) { forall d :: d in days ==> FIRST_DAY <= d <= LAST_DAY }

  /** Every day the job reads or counts to is a date, and so is the day after each one it creates. */
  predicate InCalendar<P>(g: Grid, t: Table<P>, today: int, ahead: nat) {
    AreDates(WantedDays(g, t, today, ahead)) && LAST_DAY !in MissingDays(g, t, today, ahead)
  }

  /** 0001-01-01 to 9999-12-31, and the latter only where its partition exists: it has no day after it. */
  lemma InCalendarExactly<P>(g: Grid, t: Table<P>, today: int, ahead: nat)
    ensures InCalendar(g, t, today, ahead) <==>
      && (forall d :: d in WantedDays(g, t, today, ahead) ==> -719_162 <= d <= 2_932_896)
      && (2_932_896 in WantedDays(g, t, today, ahead) ==> 2_932_896 in DayNames(g, t.parts))
  {
  }

  // ---------------------------------------------------------------------------------------
  // After maintenance
  // ---------------------------------------------------------------------------------------

  /** The layout the job promises, and the rows it must not lose. */
  ghost predicate Maintained<P>(g: Grid, t: Table<P>, today: int, ahead: nat, t': Table<P>) {
    && Legal(t')
    && Contents(t') == Contents(t)
    && AllCanonical(g, t'.parts)
    && (t.default.None? ==> t'.default.None?)
    && (t.default.Some? ==> t'.default == Some([]))
    && DayNames(g, t'.parts) == DayNames(g, t.parts) + WantedDays(g, t, today, ahead)
  }

  /** Nothing left to convert, to move or to create on that day. */
  ghost predicate Settled<P>(g: Grid, t: Table<P>, today: int, ahead: nat) {
    && AllCanonical(g, t.parts)
    && (t.default.Some? ==> t.default.value == [])
    && DaysAhead(today, ahead) <= DayNames(g, t.parts)
  }

  lemma MaintainedIsSettled<P>(g: Grid, t: Table<P>, today: int, ahead: nat, t': Table<P>)
    requires Maintained(g, t, today, ahead, t')
    ensures Settled(g, t', today, ahead)
  {
  }

  lemma SettledNeedsNothing<P>(g: Grid, t: Table<P>, today: int, ahead: nat)
    requires Settled(g, t, today, ahead)
    ensures DayParts(g, t.parts) == t.parts && OtherParts(g, t.parts) == []
    ensures MissingDays(g, t, today, ahead) == {}
  {
    AllCanonicalSplit(g, t.parts);
  }

  /**
   In a canonical table a row is stored in the partition of its own day and nowhere else, so that
   partition holds all copies of it.
   */
  lemma RowAtHome<P>(g: Grid, parts: seq<Part<P>>, i: nat, row: Row<P>)
    requires i < |parts| && NamesDistinct(parts) && AllCanonical(g, parts)
    requires forall j :: 0 <= j < |parts| ==> RowsInRange(parts[j])
    requires parts[i].name == Slot(SlotOf(g, row.key))
    ensures multiset(parts[i].rows)[row] == PartRows(parts)[row]
  {
    forall j | 0 <= j < |parts| && j != i
      ensures row !in parts[j].rows
    {
      NotAtHome(g, parts, i, j, row);
    }
    OnlyThere(parts, i, row);
  }

  lemma OnlyThere<P>(parts: seq<Part<P>>, i: nat, row: Row<P>)
    requires i < |parts| && forall j :: 0 <= j < |parts| && j != i ==> row !in parts[j].rows
    ensures multiset(parts[i].rows)[row] == PartRows(parts)[row]
  {
    PartRowsSplit(parts, i);
    var rest := parts[..i] + parts[i + 1..];
    forall j | 0 <= j < |rest|
      ensures row !in rest[j].rows
    {
      assert rest[j] == parts[if j < i then j else j + 1];
    }
    NowhereIn(rest, row);
  }

  lemma NotAtHome<P>(g: Grid, parts: seq<Part<P>>, i: nat, k: nat, row: Row<P>)
    requires i < |parts| && k < |parts| && i != k && NamesDistinct(parts)
    requires Canonical(g, parts[k]) && RowsInRange(parts[k])
    requires parts[i].name == Slot(SlotOf(g, row.key))
    ensures row !in parts[k].rows
  {
    CanonicalHolds(g, parts[k], row.key);
  }

  lemma {:induction false} NowhereIn<P>(parts: seq<Part<P>>, row: Row<P>)
    requires forall j :: 0 <= j < |parts| ==> row !in parts[j].rows
    ensures PartRows(parts)[row] == 0
  {
    if parts != [] {
      NowhereIn(parts[..|parts| - 1], row);
    }
  }

  /** After maintenance each row sits in its own IST day's partition, in as many copies as before. */
  lemma EveryRowInItsDay<P>(g: Grid, t: Table<P>, today: int, ahead: nat, t': Table<P>, row: Row<P>)
    requires Maintained(g, t, today, ahead, t')
    requires row in Contents(t)
    ensures exists i :: 0 <= i < |t'.parts| && t'.parts[i].name == Slot(SlotOf(g, row.key)) &&
                        multiset(t'.parts[i].rows)[row] == Contents(t)[row]
  {
    if forall j :: 0 <= j < |t'.parts| ==> row !in t'.parts[j].rows {
      NowhereIn(t'.parts, row);
      assert false;
    }
    var i :| 0 <= i < |t'.parts| && row in t'.parts[i].rows;
    CanonicalHolds(g, t'.parts[i], row.key);
    RowAtHome(g, t'.parts, i, row);
  }

  /** Some partition is named for the row's day in India and has exactly these many copies of it. */
  ghost predicate InItsIstDay<P>(parts: seq<Part<P>>, row: Row<P>, copies: nat) {
    exists i :: 0 <= i < |parts| && parts[i].name.Slot? && ShowsIstDay(row.key, parts[i].name.k)
                && multiset(parts[i].rows)[row] == copies
  }

  /** The day partitions exist through the horizon, DEFAULT is empty, and the rows are those there were. */
  lemma MaintainedLayout<P>(g: Grid, t: Table<P>, today: int, ahead: nat, t': Table<P>)
    requires Maintained(g, t, today, ahead, t')
    ensures Contents(t') == Contents(t) && t'.default in {None, Some([])}
    ensures forall d :: today <= d <= today + ahead ==> Slot(d) in Names(t'.parts)
  {
    forall d | today <= d <= today + ahead
      ensures Slot(d) in Names(t'.parts)
    {
      assert d in DayNames(g, t'.parts);
    }
  }

  lemma EveryRowOnItsIstDay<P>(t: Table<P>, today: int, ahead: nat, t': Table<P>)
    requires Maintained(IstDays(), t, today, ahead, t')
    ensures forall row :: row in Contents(t) ==> InItsIstDay(t'.parts, row, Contents(t)[row])
  {
    forall row | row in Contents(t)
      ensures InItsIstDay(t'.parts, row, Contents(t)[row])
    {
      EveryRowInItsDay(IstDays(), t, today, ahead, t', row);
      IstSlots(row.key, SlotOf(IstDays(), row.key));
    }
  }

  // ---------------------------------------------------------------------------------------
  // The maintenance transaction
  // ---------------------------------------------------------------------------------------

  ghost function ListRows<P>(lists: seq<seq<Row<P>>>): multiset<Row<P>> {
    if lists == [] then multiset{} else ListRows(lists[..|lists| - 1]) + multiset(lists[|lists| - 1])
  }

  lemma {:induction false} ListRowsOfParts<P>(parts: seq<Part<P>>)
    ensures ListRows(RowLists(parts)) == PartRows(parts)
  {
    if parts != [] {
      ListRowsOfParts(parts[..|parts| - 1]);
      assert RowLists(parts)[..|parts| - 1] == RowLists(parts[..|parts| - 1]);
    }
  }

  lemma {:induction false} ListRowsCons<P>(rows: seq<Row<P>>, lists: seq<seq<Row<P>>>)
    ensures ListRows([rows] + lists) == multiset(rows) + ListRows(lists)
  {
    if lists == [] {
      assert [rows] + lists == [rows] && [rows][..0] == [];
    } else {
      ListRowsCons(rows, lists[..|lists| - 1]);
      assert ([rows] + lists)[..|lists|] == [rows] + lists[..|lists| - 1];
    }
  }

  /** The tables rows are restored from: ue_moved when it received rows, then the detached partitions. */
  function Sources<P>(moved: seq<Row<P>>, scratch: seq<seq<Row<P>>>): seq<seq<Row<P>>> {
    (if |moved| != 0 then [moved] else []) + scratch
  }

  /** Every listed row has the partition of its day. */
  ghost predicate HasDays<P>(g: Grid, parts: seq<Part<P>>, lists: seq<seq<Row<P>>>) {
    forall i, r :: 0 <= i < |lists| && r in lists[i] ==> SlotOf(g, r.key) in DayNames(g, parts)
  }

  lemma RoutesByDay<P>(g: Grid, parts: seq<Part<P>>, rows: seq<Row<P>>)
    requires forall r :: r in rows ==> SlotOf(g, r.key) in DayNames(g, parts)
    ensures AllRoute(parts, rows)
  {
    forall r | r in rows
      ensures Route(parts, r.key) < |parts|
    {
      var i :| 0 <= i < |parts| && Canonical(g, parts[i]) && parts[i].name.k == SlotOf(g, r.key);
      CanonicalHolds(g, parts[i], r.key);
    }
  }

  lemma ShapeKeepsDays<P>(g: Grid, a: seq<Part<P>>, b: seq<Part<P>>)
    requires SameShape(a, b)
    ensures DayNames(g, a) == DayNames(g, b)
    ensures AllCanonical(g, a) <==> AllCanonical(g, b)
  {
    assert forall i :: 0 <= i < |a| ==>
      SameBounds(a[i], b[i]) && Canonical(g, a[i]) == Canonical(g, b[i]) && a[i].name == b[i].name;
  }

  /** Restoring the detached and moved rows through the parent: no row is refused or dropped. */
  method Restore<P>(g: Grid, t: Table<P>, sources: seq<seq<Row<P>>>) returns (r: Result<Table<P>>, restored: nat)
    requires Legal(t) && HasDays(g, t.parts, sources)
    ensures r.Ok? && Legal(r.value) && SameShape(r.value.parts, t.parts) && r.value.default == t.default
    ensures Contents(r.value) == Contents(t) + ListRows(sources)
    ensures sources == [] ==> r.value == t && restored == 0
  {
    var tx := t;
    restored := 0;
    for i := 0 to |sources|
      invariant Legal(tx) && SameShape(tx.parts, t.parts) && tx.default == t.default
      invariant Contents(tx) == Contents(t) + ListRows(sources[..i])
      invariant i == 0 ==> tx == t && restored == 0
    {
      RestoreStep(g, t, tx, sources, i);
      tx := InsertRows(tx, sources[i]).value;
      restored := restored + |sources[i]|;
    }
    assert sources[..|sources|] == sources;
    r := Ok(tx);
  }

  lemma RestoreStep<P>(g: Grid, t: Table<P>, tx: Table<P>, sources: seq<seq<Row<P>>>, i: nat)
    requires i < |sources| && HasDays(g, t.parts, sources)
    requires Legal(tx) && SameShape(tx.parts, t.parts)
    ensures InsertRows(tx, sources[i]).Ok?
    ensures
      var tx' := InsertRows(tx, sources[i]).value;
      Legal(tx') && SameShape(tx'.parts, t.parts) && tx'.default == tx.default
    ensures Contents(InsertRows(tx, sources[i]).value) == Contents(tx) + multiset(sources[i])
    ensures ListRows(sources[..i + 1]) == ListRows(sources[..i]) + multiset(sources[i])
  {
    ShapeKeepsDays(g, tx.parts, t.parts);
    RoutesByDay(g, tx.parts, sources[i]);
    InsertRowsExact(tx, sources[i]);
    InsertRowsKeepsLegal(tx, sources[i]);
    assert sources[..i + 1][..i] == sources[..i];
    ShapeTransitive(InsertRows(tx, sources[i]).value.parts, tx.parts, t.parts);
  }

  lemma ShapeTransitive<P>(a: seq<Part<P>>, b: seq<Part<P>>, c: seq<Part<P>>)
    requires SameShape(a, b) && SameShape(b, c)
    ensures SameShape(a, c)
  {
    forall i | 0 <= i < |a|
      ensures SameBounds(a[i], c[i])
    {
      assert SameBounds(a[i], b[i]) && SameBounds(b[i], c[i]);
    }
  }

  /** Every row of DEFAULT is for a day without a partition, so all of them are moved out. */
  lemma DefaultRowsAreMissing<P>(g: Grid, t: Table<P>, today: int, ahead: nat)
    requires Legal(t) && t.default.Some?
    ensures forall r :: r in t.default.value ==> SlotOf(g, r.key) in MissingDays(g, t, today, ahead)
    ensures OutsideSlots(g, t.default.value, MissingDays(g, t, today, ahead)) == []
    ensures t.default.value == [] || MissingDays(g, t, today, ahead) != {}
  {
    var missing := MissingDays(g, t, today, ahead);
    var rows := t.default.value;
    forall r | r in rows
      ensures SlotOf(g, r.key) in missing
    {
      var i :| 0 <= i < |rows| && rows[i] == r;
      assert SlotOf(g, rows[i].key) in RowDays(g, rows);
      forall j | 0 <= j < |t.parts| && Canonical(g, t.parts[j])
        ensures t.parts[j].name.k != SlotOf(g, r.key)
      {
        CanonicalHolds(g, t.parts[j], r.key);
      }
    }
    NothingOutside(g, rows, missing);
    assert |rows| > 0 ==> rows[0] in rows;
  }

  lemma {:induction false} NothingOutside<P>(g: Grid, rows: seq<Row<P>>, slots: set<int>)
    requires forall r :: r in rows ==> SlotOf(g, r.key) in slots
    ensures OutsideSlots(g, rows, slots) == []
  {
    if rows != [] {
      assert rows[0] in rows;
      NothingOutside(g, rows[1..], slots);
    }
  }

  lemma MissingDayIsFree<P>(g: Grid, parts: seq<Part<P>>, reserved: set<RelName>, k: int)
    requires k !in DayNames(g, parts)
    ensures SlotFree(g, DayParts(g, parts), reserved, k) <==> Slot(k) !in reserved
  {
    var days := DayParts(g, parts);
    forall i | 0 <= i < |days|
      ensures days[i].name != Slot(k) && !days[i].Meets(Lower(g, k), Lower(g, k + 1))
    {
      var j := DayPartAt(g, parts, i);
      SlotsMeet(g, days[i].name.k, k);
    }
  }

  lemma DayPartsNames<P>(g: Grid, parts: seq<Part<P>>)
    ensures DayNames(g, DayParts(g, parts)) == DayNames(g, parts)
    ensures AllCanonical(g, DayParts(g, parts))
  {
    var days := DayParts(g, parts);
    forall i | 0 <= i < |days|
      ensures Canonical(g, days[i]) && days[i].name.k in DayNames(g, parts)
    {
      var j := DayPartAt(g, parts, i);
    }
    forall j | 0 <= j < |parts| && Canonical(g, parts[j])
      ensures parts[j].name.k in DayNames(g, days)
    {
      var i := SplitIndex(g, parts, j);
    }
  }

  /** The table after detaching and moving: the day partitions, and an empty DEFAULT. */
  ghost predicate Emptied<P>(g: Grid, t: Table<P>, tx: Table<P>) {
    && tx.parts == DayParts(g, t.parts)
    && tx.default == if t.default.Some? then Some([]) else None
  }

  lemma AfterMove<P>(g: Grid, t: Table<P>, today: int, ahead: nat, created: seq<int>, moved: seq<Row<P>>, tx: Table<P>)
    requires Legal(t) && Lists(created, MissingDays(g, t, today, ahead))
    requires tx.parts == DayParts(g, t.parts)
    requires
      if t.default.Some? && created != [] then
        && moved == InSlots(g, t.default.value, MissingDays(g, t, today, ahead))
        && tx.default == Some(OutsideSlots(g, t.default.value, MissingDays(g, t, today, ahead)))
      else moved == [] && tx.default == t.default
    ensures Emptied(g, t, tx) && Legal(tx)
    ensures multiset(moved) == if t.default.Some? then multiset(t.default.value) else multiset{}
    ensures forall r :: r in moved ==> SlotOf(g, r.key) in created
  {
    var missing := MissingDays(g, t, today, ahead);
    if t.default.Some? {
      DefaultRowsAreMissing(g, t, today, ahead);
      SlotSplit(g, t.default.value, missing);
      SlotMembers(g, t.default.value, missing);
    }
    EmptiedIsLegal(g, t, tx);
  }

  lemma EmptiedContents<P>(g: Grid, t: Table<P>, tx: Table<P>)
    requires Emptied(g, t, tx)
    ensures Contents(tx) == PartRows(DayParts(g, t.parts))
  {
  }

  lemma EmptiedIsLegal<P>(g: Grid, t: Table<P>, tx: Table<P>)
    requires Legal(t) && Emptied(g, t, tx)
    ensures Legal(tx)
  {
    DayPartsLegal(g, t.parts);
    forall i | 0 <= i < |tx.parts|
      ensures RowsInRange(tx.parts[i])
    {
      var j := DayPartAt(g, t.parts, i);
    }
  }

  lemma SlotNames<P>(g: Grid, days: seq<Part<P>>, created: seq<int>)
    requires AllCanonical(g, days)
    ensures AllCanonical(g, days + EmptySlots(g, created))
    ensures forall d :: d in DayNames(g, days + EmptySlots(g, created)) <==> d in DayNames(g, days) || d in created
  {
    var parts := days + EmptySlots(g, created);
    forall i | 0 <= i < |days|
      ensures parts[i] == days[i]
    {
    }
    forall i | 0 <= i < |created|
      ensures parts[|days| + i] == EmptySlot(g, created[i]) && created[i] in DayNames(g, parts)
    {
    }
    forall d | d in DayNames(g, days)
      ensures d in DayNames(g, parts)
    {
      var i :| 0 <= i < |days| && Canonical(g, days[i]) && days[i].name.k == d;
      assert parts[i] == days[i];
    }
    forall d | d in DayNames(g, parts)
      ensures d in DayNames(g, days) || d in created
    {
      var i :| 0 <= i < |parts| && Canonical(g, parts[i]) && parts[i].name.k == d;
      assert i >= |days| ==> d == created[i - |days|];
    }
  }

  lemma LayoutAfterCreate<P>(g: Grid, t: Table<P>, today: int, ahead: nat, created: seq<int>, tx: Table<P>)
    requires Lists(created, MissingDays(g, t, today, ahead))
    requires tx.parts == DayParts(g, t.parts) + EmptySlots(g, created)
    ensures AllCanonical(g, tx.parts)
    ensures DayNames(g, tx.parts) == DayNames(g, t.parts) + WantedDays(g, t, today, ahead)
    ensures forall d :: d in created ==> d in DayNames(g, tx.parts)
  {
    DayPartsNames(g, t.parts);
    SlotNames(g, DayParts(g, t.parts), created);
  }

  lemma SourcesAfterCreate<P>(g: Grid, listed: seq<Part<P>>, others: seq<Part<P>>, moved: seq<Row<P>>,
                              parts: seq<Part<P>>)
    requires multiset(others) == multiset(listed) && PartDays(g, listed) <= DayNames(g, parts)
    requires forall r :: r in moved ==> SlotOf(g, r.key) in DayNames(g, parts)
    ensures HasDays(g, parts, Sources(moved, RowLists(others)))
    ensures ListRows(Sources(moved, RowLists(others))) == multiset(moved) + PartRows(listed)
  {
    SourceRows(moved, others);
    ReorderedRows(others, listed);
    ReorderedDays(g, others, listed);
    SourcesHaveDays(g, parts, moved, others);
  }

  lemma AfterCreate<P>(g: Grid, t: Table<P>, others: seq<Part<P>>, today: int, ahead: nat, created: seq<int>,
                       moved: seq<Row<P>>, tx: Table<P>, sources: seq<seq<Row<P>>>)
    requires ConversionOrder(g, t.parts, others)
    requires Lists(created, MissingDays(g, t, today, ahead))
    requires tx.parts == DayParts(g, t.parts) + EmptySlots(g, created)
    requires sources == Sources(moved, RowLists(others))
    requires forall r :: r in moved ==> SlotOf(g, r.key) in created
    ensures AllCanonical(g, tx.parts)
    ensures DayNames(g, tx.parts) == DayNames(g, t.parts) + WantedDays(g, t, today, ahead)
    ensures HasDays(g, tx.parts, sources)
    ensures ListRows(sources) == multiset(moved) + PartRows(OtherParts(g, t.parts))
  {
    LayoutAfterCreate(g, t, today, ahead, created, tx);
    SourcesAfterCreate(g, OtherParts(g, t.parts), others, moved, tx.parts);
  }

  lemma SourceRows<P>(moved: seq<Row<P>>, others: seq<Part<P>>)
    ensures ListRows(Sources(moved, RowLists(others))) == multiset(moved) + PartRows(others)
  {
    ListRowsOfParts(others);
    ListRowsCons(moved, RowLists(others));
    assert [] + RowLists(others) == RowLists(others);
  }

  lemma SourcesHaveDays<P>(g: Grid, parts: seq<Part<P>>, moved: seq<Row<P>>, others: seq<Part<P>>)
    requires forall r :: r in moved ==> SlotOf(g, r.key) in DayNames(g, parts)
    requires PartDays(g, others) <= DayNames(g, parts)
    ensures HasDays(g, parts, Sources(moved, RowLists(others)))
  {
    forall p, r | 0 <= p < |others| && r in others[p].rows
      ensures SlotOf(g, r.key) in DayNames(g, parts)
    {
      var j :| 0 <= j < |others[p].rows| && others[p].rows[j] == r;
      assert SlotOf(g, others[p].rows[j].key) in PartDays(g, others);
    }
  }

  lemma AfterRestore<P>(g: Grid, t: Table<P>, today: int, ahead: nat, tx: Table<P>, t': Table<P>,
                        moved: seq<Row<P>>, sources: seq<seq<Row<P>>>)
    requires Legal(t') && SameShape(t'.parts, tx.parts) && AllCanonical(g, tx.parts)
    requires t'.default == if t.default.Some? then Some([]) else None
    requires DayNames(g, tx.parts) == DayNames(g, t.parts) + WantedDays(g, t, today, ahead)
    requires Contents(t') == PartRows(DayParts(g, t.parts)) + ListRows(sources)
    requires ListRows(sources) == multiset(moved) + PartRows(OtherParts(g, t.parts))
    requires multiset(moved) == if t.default.Some? then multiset(t.default.value) else multiset{}
    ensures Maintained(g, t, today, ahead, t')
  {
    ShapeKeepsDays(g, t'.parts, tx.parts);
    SplitConservesRows(g, t.parts);
  }

  datatype Outcome<P> =
    | Done(table: Table<P>, converted: nat, created: seq<int>, moved: nat, restored: nat)
    | Failed(reason: Error)

  /** What must hold of the names in use for the transaction to commit. */
  predicate NamesFree<P>(g: Grid, t: Table<P>, others: seq<Part<P>>, today: int, ahead: nat, reserved: set<RelName>) {
    && RenamesFree(others, reserved)
    && forall d :: d in MissingDays(g, t, today, ahead) ==> Slot(d) !in reserved
  }

  datatype Prepared<P> = Prepared(tx: Table<P>, scratch: seq<seq<Row<P>>>, moved: seq<Row<P>>, wanted: set<int>,
                                  created: seq<int>)

  ghost predicate IsPrepared<P>(g: Grid, t: Table<P>, others: seq<Part<P>>, today: int, ahead: nat, p: Prepared<P>) {
    && Emptied(g, t, p.tx) && Legal(p.tx)
    && ConversionOrder(g, t.parts, others) && p.scratch == RowLists(others)
    && p.wanted == WantedDays(g, t, today, ahead)
    && Ascending(p.created) && Lists(p.created, MissingDays(g, t, today, ahead))
    && (MissingDays(g, t, today, ahead) == {} ==> p.created == [])
    && multiset(p.moved) == (if t.default.Some? then multiset(t.default.value) else multiset{})
    && forall x :: x in p.moved ==> SlotOf(g, x.key) in p.created
  }

  /** Up to CREATE TABLE: detach and rename, work out the missing days, empty DEFAULT. */
  method Prepare<P>(g: Grid, t: Table<P>, others: seq<Part<P>>, today: int, ahead: nat, reserved: set<RelName>)
    returns (r: Result<Prepared<P>>)
    requires Legal(t) && ConversionOrder(g, t.parts, others)
    ensures r.Ok? <==> RenamesFree(others, reserved)
    ensures r.Ok? ==> IsPrepared(g, t, others, today, ahead, r.value)
  {
    var detached := ConvertOthers(g, t, others, reserved);
    if detached.Err? {
      return Err(detached.error);
    }
    var tx := detached.value.table;
    var wanted := DaysAhead(today, ahead) + detached.value.days + DefaultDays(g, t);
    var missing := wanted - DayNames(g, t.parts);
    var created := Sorted(missing);
    var moved := [];
    if t.default.Some? && created != [] {
      moved := InSlots(g, t.default.value, missing);
      tx := tx.(default := Some(OutsideSlots(g, t.default.value, missing)));
    }
    AfterMove(g, t, today, ahead, created, moved, tx);
    return Ok(Prepared(tx, detached.value.scratch, moved, wanted, created));
  }

  /**
   The body of the transaction. It commits exactly when no name it needs is taken and no day lies
   outside the calendar, and then the rows are conserved in the canonical layout; on a settled table it
   changes nothing.
   */
  method MaintainTx<P>(g: Grid, t: Table<P>, others: seq<Part<P>>, today: int, ahead: nat, reserved: set<RelName>)
    returns (r: Outcome<P>)
    requires Legal(t) && ConversionOrder(g, t.parts, others)
    ensures r.Done? <==> NamesFree(g, t, others, today, ahead, reserved) && InCalendar(g, t, today, ahead)
    ensures r.Done? ==> Maintained(g, t, today, ahead, r.table)
    ensures Settled(g, t, today, ahead) && InCalendar(g, t, today, ahead) ==> r == Done(t, 0, [], 0, 0)
  {
    var prepared := Prepare(g, t, others, today, ahead, reserved);
    if prepared.Err? {
      SettledNamesFree(g, t, others, today, ahead, reserved);
      return Failed(Sql(prepared.error));
    }
    var created := prepared.value.created;
    if !AreDates(prepared.value.wanted) || LAST_DAY in created {
      return Failed(OutsideCalendar);
    }
    var restored, count := CreateAndRestore(g, t, others, today, ahead, reserved, prepared.value);
    if restored.Err? {
      SettledNamesFree(g, t, others, today, ahead, reserved);
      return Failed(Sql(restored.error));
    }
    SettledIsFixed(g, t, others, today, ahead, prepared.value);
    return Done(restored.value, |prepared.value.scratch|, created, |prepared.value.moved|, count);
  }

  /** CREATE TABLE for the missing days, then restore. */
  method CreateAndRestore<P>(g: Grid, t: Table<P>, others: seq<Part<P>>, today: int, ahead: nat,
                             reserved: set<RelName>, p: Prepared<P>)
    returns (r: Result<Table<P>>, count: nat)
    requires IsPrepared(g, t, others, today, ahead, p)
    ensures r.Ok? <==> forall d :: d in MissingDays(g, t, today, ahead) ==> Slot(d) !in reserved
    ensures r.Ok? ==> Maintained(g, t, today, ahead, r.value)
    ensures r.Ok? && p.moved == [] && p.scratch == [] ==> r.value == WithSlots(g, p.tx, p.created) && count == 0
  {
    count := 0;
    MissingDaysAreFree(g, t, others, today, ahead, reserved, p);
    var slots := CreateSlots(g, p.tx, reserved, p.created);
    if slots.Err? {
      return Err(slots.error), 0;
    }
    r, count := Refill(g, t, others, today, ahead, p, slots.value);
  }

  lemma MissingDaysAreFree<P>(g: Grid, t: Table<P>, others: seq<Part<P>>, today: int, ahead: nat,
                              reserved: set<RelName>, p: Prepared<P>)
    requires IsPrepared(g, t, others, today, ahead, p)
    ensures (forall k :: k in p.created ==> SlotFree(g, p.tx.parts, reserved, k)) <==>
            (forall d :: d in MissingDays(g, t, today, ahead) ==> Slot(d) !in reserved)
  {
    forall k | k in p.created
      ensures SlotFree(g, p.tx.parts, reserved, k) <==> Slot(k) !in reserved
    {
      MissingDayIsFree(g, t.parts, reserved, k);
    }
  }

  /** Restore from the moved rows and the detached partitions. */
  method Refill<P>(g: Grid, t: Table<P>, others: seq<Part<P>>, today: int, ahead: nat, p: Prepared<P>, tx: Table<P>)
    returns (r: Result<Table<P>>, count: nat)
    requires IsPrepared(g, t, others, today, ahead, p)
    requires tx == WithSlots(g, p.tx, p.created) && Legal(tx) && Contents(tx) == Contents(p.tx)
    ensures r.Ok? && Maintained(g, t, today, ahead, r.value)
    ensures p.moved == [] && p.scratch == [] ==> r.value == tx && count == 0
  {
    var sources := Sources(p.moved, p.scratch);
    AfterCreate(g, t, others, today, ahead, p.created, p.moved, tx, sources);
    r, count := Restore(g, tx, sources);
    EmptiedContents(g, t, p.tx);
    AfterRestore(g, t, today, ahead, tx, r.value, p.moved, sources);
  }

  lemma SettledNamesFree<P>(g: Grid, t: Table<P>, others: seq<Part<P>>, today: int, ahead: nat, reserved: set<RelName>)
    requires ConversionOrder(g, t.parts, others)
    ensures Settled(g, t, today, ahead) ==> NamesFree(g, t, others, today, ahead, reserved)
  {
    if Settled(g, t, today, ahead) {
      SettledNeedsNothing(g, t, today, ahead);
      assert |others| == |multiset(others)|;
    }
  }

  lemma SettledIsFixed<P>(g: Grid, t: Table<P>, others: seq<Part<P>>, today: int, ahead: nat, p: Prepared<P>)
    requires IsPrepared(g, t, others, today, ahead, p)
    ensures Settled(g, t, today, ahead) ==>
      p.created == [] && p.moved == [] && p.scratch == [] && WithSlots(g, p.tx, p.created) == t
  {
    if Settled(g, t, today, ahead) {
      SettledNeedsNothing(g, t, today, ahead);
      assert forall x :: x in p.moved ==> SlotOf(g, x.key) in p.created;
      assert multiset(p.moved) == multiset{};
      assert |p.moved| == |multiset(p.moved)| && |others| == |multiset(others)|;
      assert t.parts + EmptySlots(g, []) == t.parts;
    }
  }

  /** Two empty partitions side by side. */
  function TwoParts(first: RelName, second: RelName): Table<int> {
    Table([Part(first, Some(0), Some(10), []), Part(second, Some(10), Some(20), [])], None)
  }

  lemma TwoPartsLegal(first: RelName, second: RelName)
    requires first != second
    ensures Legal(TwoParts(first, second))
  {
  }

  function CollisionTable(): Table<int> { TwoParts(Other("usage_events_2026_10"), Convert(0)) }

  /** A partition that carries the first scratch name: whichever is renamed first finds it taken. */
  lemma ScratchNameCollision(g: Grid, others: seq<Part<int>>)
    requires ConversionOrder(g, CollisionTable().parts, others)
    ensures Legal(CollisionTable()) && !NamesFree(g, CollisionTable(), others, 0, 0, {})
  {
    TwoPartsLegal(Other("usage_events_2026_10"), Convert(0));
    NoneCanonical(g, CollisionTable().parts);
    StandsInTheWay(CollisionTable().parts, others, 1);
  }

  lemma StandsInTheWay<P>(listed: seq<Part<P>>, others: seq<Part<P>>, k: nat)
    requires multiset(others) == multiset(listed) && k < |listed| && listed[k].name == Convert(0)
    ensures !RenamesFree(others, {})
  {
    var j := ReorderedAt(listed, others, k);
    assert others[j].name == Convert(0);
    assert !RenameFree(others, {}, 0);
  }

  /**
   When no order can fail on the partitions' own names: none of them carries a scratch name that the
   run will give out.
   */
  lemma RenamesFreeInEveryOrder<P>(g: Grid, parts: seq<Part<P>>, reserved: set<RelName>)
    requires NamesDistinct(parts)
    ensures (forall others :: ConversionOrder(g, parts, others) ==> RenamesFree(others, reserved)) <==>
      var n := |OtherParts(g, parts)|;
      forall i :: 0 <= i < n ==> Convert(i) !in reserved && Convert(i) !in Names(OtherParts(g, parts))
  {
    var listed := OtherParts(g, parts);
    if i :| 0 <= i < |listed| && (Convert(i) in reserved || Convert(i) in Names(listed)) {
      if Convert(i) in reserved {
        assert !RenameFree(listed, reserved, i);
        assert ConversionOrder(g, parts, listed);
      } else {
        var k :| 0 <= k < |listed| && listed[k].name == Convert(i);
        var others := PutLast(listed, k);
        assert others[|others| - 1].name == Convert(i);
        assert !RenameFree(others, reserved, i);
        assert ConversionOrder(g, parts, others);
      }
    } else {
      forall others | ConversionOrder(g, parts, others)
        ensures RenamesFree(others, reserved)
      {
        ReorderedFree(others, listed, reserved);
      }
    }
  }

  function PutLast<P>(s: seq<Part<P>>, k: nat): (r: seq<Part<P>>)
    requires k < |s|
    ensures |r| == |s| && r[|r| - 1] == s[k] && multiset(r) == multiset(s)
  {
    SplitAt(s, k);
    Without(s, k) + [s[k]]
  }

  lemma ReorderedFree<P>(others: seq<Part<P>>, listed: seq<Part<P>>, reserved: set<RelName>)
    requires multiset(others) == multiset(listed)
    requires forall i :: 0 <= i < |listed| ==> Convert(i) !in reserved && Convert(i) !in Names(listed)
    ensures RenamesFree(others, reserved)
  {
    ReorderedNames(others, listed);
    assert |others| == |multiset(others)| == |multiset(listed)| == |listed|;
    forall i | 0 <= i < |others|
      ensures RenameFree(others, reserved, i)
    {
      assert Convert(i) !in Names(others);
    }
  }

  function OrderTable(): Table<int> { TwoParts(Convert(1), Other("aaa")) }

  /** The order matters: renamed first, ue_convert_1 makes way; renamed second, it stands in its own way. */
  lemma RenameOrderMatters(g: Grid)
    ensures
      var parts := OrderTable().parts;
      && Legal(OrderTable())
      && ConversionOrder(g, parts, parts) && RenamesFree(parts, {})
      && ConversionOrder(g, parts, Swapped(parts)) && !RenamesFree(Swapped(parts), {})
  {
    var parts := OrderTable().parts;
    TwoPartsLegal(Convert(1), Other("aaa"));
    NoneCanonical(g, parts);
    MakesWay(parts);
    SwappedStandsInItsWay(parts, Swapped(parts));
  }

  lemma MakesWay<P>(parts: seq<Part<P>>)
    requires |parts| == 2 && parts[0].name == Convert(1) && parts[1].name.Other?
    ensures RenamesFree(parts, {})
  {
    assert RenameFree(parts, {}, 0) && RenameFree(parts, {}, 1);
  }

  function Swapped<P>(s: seq<Part<P>>): (r: seq<Part<P>>)
    requires |s| == 2
    ensures multiset(r) == multiset(s)
  {
    assert s == [s[0], s[1]];
    [s[1], s[0]]
  }

  lemma SwappedStandsInItsWay<P>(parts: seq<Part<P>>, others: seq<Part<P>>)
    requires |parts| == 2 && others == [parts[1], parts[0]] && parts[0].name == Convert(1)
    ensures !RenamesFree(others, {})
  {
    assert others[1].name == Convert(1);
    assert !RenameFree(others, {}, 1);
  }

  lemma {:induction false} NoneCanonical<P>(g: Grid, parts: seq<Part<P>>)
    requires forall i :: 0 <= i < |parts| ==> !parts[i].name.Slot?
    ensures OtherParts(g, parts) == parts
  {
    if parts != [] {
      NoneCanonical(g, parts[..|parts| - 1]);
      assert parts == parts[..|parts| - 1] + [parts[|parts| - 1]];
    }
  }

  /** usage_events as the job sees it. */
  class UsageEventsTable<P> {
    var table: Table<P>

    constructor (table: Table<P>)
      ensures this.table == table
    {
      this.table := table;
    }

    /** One transaction: skipped without the advisory lock, rolled back on an error. */
    method MaintainPartitions(others: seq<Part<P>>, today: int, ahead: nat, reserved: set<RelName>, locked: bool)
      returns (committed: bool)
      requires Legal(table) && ConversionOrder(IstDays(), table.parts, others)
      modifies this
      ensures Legal(table)
      ensures committed <==>
        && locked && NamesFree(IstDays(), old(table), others, today, ahead, reserved)
        && InCalendar(IstDays(), old(table), today, ahead)
      ensures !committed ==> table == old(table)
      ensures committed ==> Maintained(IstDays(), old(table), today, ahead, table)
      ensures committed ==>
        && Contents(table) == Contents(old(table)) && table.default in {None, Some([])}
        && (forall d :: today <= d <= today + ahead ==> Slot(d) in Names(table.parts))
        && forall row :: row in Contents(old(table)) ==> InItsIstDay(table.parts, row, Contents(old(table))[row])
      ensures Settled(IstDays(), old(table), today, ahead) ==> table == old(table)
    {
      if !locked {
        return false;
      }
      var outcome := MaintainTx(IstDays(), table, others, today, ahead, reserved);
      match outcome {
        case Done(t, _, _, _, _) =>
          EveryRowOnItsIstDay(table, today, ahead, t);
          MaintainedLayout(IstDays(), table, today, ahead, t);
          table := t;
          return true;
        case Failed(_) =>
          return false;
      }
    }

    /** A second run on the same day finds nothing to do. */
    method MaintainTwice(others: seq<Part<P>>, today: int, ahead: nat, reserved: set<RelName>) returns (first: Table<P>)
      requires Legal(table) && ConversionOrder(IstDays(), table.parts, others)
      requires NamesFree(IstDays(), table, others, today, ahead, reserved) && InCalendar(IstDays(), table, today, ahead)
      modifies this
      ensures Maintained(IstDays(), old(table), today, ahead, first) && table == first
    {
      var _ := MaintainPartitions(others, today, ahead, reserved, true);
      first := table;
      MaintainedIsSettled(IstDays(), old(table), today, ahead, table);
      SettledNeedsNothing(IstDays(), table, today, ahead);
      var _ := MaintainPartitions([], today, ahead, reserved, true);
    }
  }
}
