/**
 * The week's days outside the page: the `dayMap` skeleton of seven empty days, the filling
 * of each day with the list the page gave for its column, and the sort of the days by date.
 */
module Schedule {
  import opened Wrappers
  import opened Text
  import opened Calendar
  import opened Sessions
  import opened StableSort

  /** A day of `scheduleData.days`. */
  datatype Day = Day(name: Weekday, date: nat, highlight: bool, sessions: seq<Session>, header: string)

  /** `${dayName}-${date}`, the day's key in `dayMap`. */
  function DayKey(name: Weekday, date: nat): string {
    name.Name() + "-" + NatToString(date)
  }

  /** Different weekdays have different keys, whatever their dates. */
  lemma DayKeyDistinct(a: Weekday, b: Weekday, dateA: nat, dateB: nat)
    requires a != b
    ensures DayKey(a, dateA) != DayKey(b, dateB)
  {
    NamePrefixDistinct(a, b);
    assert DayKey(a, dateA)[..2] == a.Name()[..2];
    assert DayKey(b, dateB)[..2] == b.Name()[..2];
  }

  /** The key of column `i` of the week. */
  function KeyOf(week: Week, i: nat): string
    requires week.Valid() && i < 7
  {
    DayKey(WeekdayAt(i), week.DateOf(i))
  }

  /** The day `dayMap` starts with for column `i`: no sessions, header `"NAME date"`. */
  function SkeletonDay(week: Week, i: nat): (d: Day)
    requires week.Valid() && i < 7
    ensures d.name.Index() == i && d.sessions == [] && !d.highlight
  {
    var name := WeekdayAt(i);
    var date := week.DateOf(i);
    Day(name, date, false, [], name.Name() + " " + NatToString(date))
  }

  /**
   * `Array.from(dayMap.values())` after the fill: the seven days in column order, each with
   * the list the page gave for its column.
   */
  function Filled(week: Week, sessionsByDay: seq<seq<Session>>): (r: seq<Day>)
    requires week.Valid() && |sessionsByDay| == 7
    ensures |r| == 7
  {
    seq(7, i requires 0 <= i < 7 => SkeletonDay(week, i).(sessions := sessionsByDay[i]))
  }

  /**
   * A JavaScript `Map` from keys to days: `keys` in insertion order, which is the order
   * `values()` yields them in.
   */
  class DayMap {
    var keys: seq<string>
    var entries: map<string, Day>

    ghost predicate Valid()
      reads this
    {
      && (forall i, j :: 0 <= i < j < |keys| ==> keys[i] != keys[j])
      && (forall k :: k in entries <==> k in keys)
    }

    /** `new Map()`. */
    constructor ()
      ensures Valid() && keys == [] && entries == map[]
    {
      keys := [];
      entries := map[];
    }

    /** `map.set(key, day)`: a new key goes last, an existing one keeps its place. */
    method Set(key: string, day: Day)
      requires Valid()
      modifies this
      ensures Valid()
      ensures entries == old(entries)[key := day]
      ensures keys == if key in old(entries) then old(keys) else old(keys) + [key]
    {
      if key !in entries {
        keys := keys + [key];
      }
      entries := entries[key := day];
    }

    /** `map.get(key)`, `undefined` being `None`. */
    method Get(key: string) returns (day: Option<Day>)
      ensures day.Some? <==> key in entries
      ensures day.Some? ==> day.value == entries[key]
    {
      if key in entries {
        day := Some(entries[key]);
      } else {
        day := None;
      }
    }

    /** `Array.from(map.values())`. */
    function Values(): (r: seq<Day>)
      reads this
      requires Valid()
      ensures |r| == |keys| && forall i :: 0 <= i < |keys| ==> r[i] == entries[keys[i]]
    {
      seq(|keys|, i reads this requires 0 <= i < |keys| && Valid() => entries[keys[i]])
    }
  }

  /** The map holds exactly the seven keys of `week`, in column order. */
  ghost predicate KeyedBy(m: DayMap, week: Week)
    reads m
    requires week.Valid()
  {
    m.Valid() && |m.keys| == 7 && forall i :: 0 <= i < 7 ==> m.keys[i] == KeyOf(week, i)
  }

  /** The loop that sets up `dayMap`: seven empty days keyed `NAME-date`, Sunday first. */
  method BuildDayMap(week: Week) returns (dayMap: DayMap)
    requires week.Valid()
    ensures fresh(dayMap) && KeyedBy(dayMap, week)
    ensures forall i :: 0 <= i < 7 ==> dayMap.entries[dayMap.keys[i]] == SkeletonDay(week, i)
  {
    dayMap := new DayMap();
    for i := 0 to 7
      invariant dayMap.Valid() && BuiltUpTo(dayMap.keys, dayMap.entries, week, i)
    {
      BuildStep(dayMap.keys, dayMap.entries, week, i);
      var name := WeekdayAt(i);
      var date := DateAfter(week.sunday, week.monthLength, i);
      dayMap.Set(DayKey(name, date), Day(name, date, false, [], name.Name() + " " + NatToString(date)));
    }
  }

  /** The first `n` keys are the week's first `n` keys, each holding its empty day. */
  ghost predicate BuiltUpTo(keys: seq<string>, entries: map<string, Day>, week: Week, n: nat)
    requires week.Valid() && n <= 7
  {
    |keys| == n && forall j :: 0 <= j < n ==>
      (keys[j] == KeyOf(week, j) && keys[j] in entries && entries[keys[j]] == SkeletonDay(week, j))
  }

  /** The next key is new to the map, and setting its empty day extends the built prefix by one. */
  lemma BuildStep(keys: seq<string>, entries: map<string, Day>, week: Week, n: nat)
    requires week.Valid() && n < 7 && BuiltUpTo(keys, entries, week, n)
    requires forall k :: k in entries <==> k in keys
    ensures KeyOf(week, n) !in entries
    ensures BuiltUpTo(keys + [KeyOf(week, n)], entries[KeyOf(week, n) := SkeletonDay(week, n)], week, n + 1)
  {
    forall j | 0 <= j < n ensures keys[j] != KeyOf(week, n) {
      DayKeyDistinct(WeekdayAt(j), WeekdayAt(n), week.DateOf(j), week.DateOf(n));
    }
  }

  /** `day.sessions = daySessions` for the day each column's key finds in the map. */
  method Fill(dayMap: DayMap, week: Week, sessionsByDay: seq<seq<Session>>)
    requires week.Valid() && KeyedBy(dayMap, week) && |sessionsByDay| == 7
    modifies dayMap
    ensures KeyedBy(dayMap, week)
    ensures forall i :: 0 <= i < 7 ==>
      dayMap.entries[dayMap.keys[i]] == old(dayMap.entries[dayMap.keys[i]]).(sessions := sessionsByDay[i])
  {
    ghost var keys, before := dayMap.keys, dayMap.entries;
    for dayIndex := 0 to 7
      invariant dayMap.Valid() && dayMap.keys == keys
      invariant FilledUpTo(dayMap.entries, keys, before, sessionsByDay, dayIndex)
    {
      var key := DayKey(WeekdayAt(dayIndex), DateAfter(week.sunday, week.monthLength, dayIndex));
      assert key == keys[dayIndex];
      var day := dayMap.Get(key);
      if day.Some? {
        FillStep(dayMap.entries, keys, before, sessionsByDay, dayIndex);
        dayMap.Set(key, day.value.(sessions := sessionsByDay[dayIndex]));
      }
    }
  }

  /** The first `n` keys hold their day with the new list; the others hold their day as it was. */
  ghost predicate FilledUpTo(entries: map<string, Day>, keys: seq<string>, before: map<string, Day>,
                             sessionsByDay: seq<seq<Session>>, n: nat)
    requires |keys| == 7 && |sessionsByDay| == 7 && n <= 7
    requires forall i :: 0 <= i < 7 ==> keys[i] in before
  {
    forall i :: 0 <= i < 7 ==>
      (keys[i] in entries
       && entries[keys[i]] == if i < n then before[keys[i]].(sessions := sessionsByDay[i]) else before[keys[i]])
  }

  /** Filling the day of the next key, which no other key shares, extends the filled prefix by one. */
  lemma FillStep(entries: map<string, Day>, keys: seq<string>, before: map<string, Day>,
                 sessionsByDay: seq<seq<Session>>, n: nat)
    requires |keys| == 7 && |sessionsByDay| == 7 && n < 7
    requires forall i, j :: 0 <= i < j < 7 ==> keys[i] != keys[j]
    requires forall i :: 0 <= i < 7 ==> keys[i] in before
    requires FilledUpTo(entries, keys, before, sessionsByDay, n)
    ensures FilledUpTo(entries[keys[n] := entries[keys[n]].(sessions := sessionsByDay[n])], keys, before, sessionsByDay, n + 1)
  {
  }

  /** The order of the day sort's comparator: by date, then by position in the week. */
  function DayOrderKey(d: Day): int {
    d.date * 7 + d.name.Index()
  }

  /** The key orders two days as the comparator does. */
  lemma DayOrderKeyCompares(a: Day, b: Day)
    ensures DayOrderKey(a) < DayOrderKey(b) <==> a.date < b.date || (a.date == b.date && a.name.Index() < b.name.Index())
    ensures DayOrderKey(a) == DayOrderKey(b) <==> a.date == b.date && a.name == b.name
  {
    var ia, ib := a.name.Index(), b.name.Index();
    if a.date < b.date {
      assert a.date * 7 + 7 <= b.date * 7;
    } else if b.date < a.date {
      assert b.date * 7 + 7 <= a.date * 7;
    }
    if ia == ib {
      assert a.name == WeekdayAt(ia) && b.name == WeekdayAt(ib) by {
        WeekdayIndexInjective(a.name);
        WeekdayIndexInjective(b.name);
      }
    }
  }

  lemma WeekdayIndexInjective(w: Weekday)
    ensures w == WeekdayAt(w.Index())
  {
  }

  /** `daysArray.sort(...)`, in place. */
  method SortDays(days: array<Day>)
    modifies days
    ensures days[..] == SortBy(old(days[..]), DayOrderKey)
  {
    InsertionSort(days, DayOrderKey);
  }

  /** Swapping two blocks whose keys never meet keeps every key's run. */
  lemma SwapBlocksRuns<T>(a: seq<T>, b: seq<T>, key: T -> int)
    requires forall i, j :: 0 <= i < |a| && 0 <= j < |b| ==> key(a[i]) != key(b[j])
    ensures SameRuns(b + a, a + b, key)
  {
    forall v ensures WithKey(b + a, key, v) == WithKey(a + b, key, v) {
      WithKeyAppend(a, b, key, v);
      WithKeyAppend(b, a, key, v);
      if WithKey(a, key, v) != [] && WithKey(b, key, v) != [] {
        var x, y := WithKey(a, key, v)[0], WithKey(b, key, v)[0];
        WithKeyMember(a, key, v, x);
        WithKeyMember(b, key, v, y);
      }
    }
  }

  /** Days whose dates ascend strictly are in the comparator's order. */
  lemma DatesAscendSorted(r: seq<Day>)
    requires forall i, j :: 0 <= i < j < |r| ==> r[i].date < r[j].date
    ensures Sorted(r, DayOrderKey)
  {
    forall i, j | 0 <= i < j < |r| ensures DayOrderKey(r[i]) <= DayOrderKey(r[j]) {
      assert r[i].date + 1 <= r[j].date;
      assert r[i].name.Index() < 7;
    }
  }

  /** The order the day sort produces: the days of the next month first, if any. */
  function Rotated(week: Week, days: seq<Day>): seq<Day>
    requires week.Valid() && |days| == 7
  {
    var k := week.monthLength - week.sunday + 1;
    if k >= 7 then days else days[k..] + days[..k]
  }

  /** The dates of the rotated week: the next month's days count from 1, this month's from the Sunday. */
  lemma RotatedDates(week: Week, lists: seq<seq<Session>>)
    requires week.Valid() && |lists| == 7
    ensures var r := Rotated(week, Filled(week, lists));
      var k := week.monthLength - week.sunday + 1;
      |r| == 7 && forall i :: 0 <= i < 7 ==>
        r[i].date == if k >= 7 then week.sunday + i else if i < 7 - k then i + 1 else week.sunday + i - (7 - k)
  {
    var days := Filled(week, lists);
    var k := week.monthLength - week.sunday + 1;
    var r := Rotated(week, days);
    forall i | 0 <= i < 7
      ensures r[i].date == if k >= 7 then week.sunday + i else if i < 7 - k then i + 1 else week.sunday + i - (7 - k)
    {
      if k < 7 {
        if i < 7 - k {
          assert r[i] == days[i + k];
        } else {
          assert r[i] == days[i - (7 - k)];
        }
      }
    }
  }

  lemma RotatedAscends(week: Week, lists: seq<seq<Session>>)
    requires week.Valid() && |lists| == 7
    ensures var r := Rotated(week, Filled(week, lists));
      forall i, j :: 0 <= i < j < 7 ==> r[i].date < r[j].date
  {
    RotatedDates(week, lists);
  }

  /** Rotating the week keeps every key's run: the seven keys are all different. */
  lemma RotatedRuns(week: Week, lists: seq<seq<Session>>)
    requires week.Valid() && |lists| == 7
    ensures SameRuns(Rotated(week, Filled(week, lists)), Filled(week, lists), DayOrderKey)
  {
    var days := Filled(week, lists);
    var k := week.monthLength - week.sunday + 1;
    if k >= 7 {
      assert SameRuns(days, days, DayOrderKey);
    } else {
      forall i | 0 <= i < 7 ensures days[i].date == if i < k then week.sunday + i else week.sunday + i - week.monthLength {
      }
      assert days[..k] + days[k..] == days;
      SwapBlocksRuns(days[..k], days[k..], DayOrderKey);
    }
  }

  /**
   * The day sort keeps the week in column order, unless the week runs into the next month:
   * then the days of the next month (dated 1, 2, ...) come first, followed by the days of
   * this month from Sunday on. Either way the dates ascend strictly.
   */
  lemma WeekOrder(week: Week, sessionsByDay: seq<seq<Session>>)
    requires week.Valid() && |sessionsByDay| == 7
    ensures var days := Filled(week, sessionsByDay);
      var k := week.monthLength - week.sunday + 1;
      SortBy(days, DayOrderKey) == if k >= 7 then days else days[k..] + days[..k]
    ensures var sorted := SortBy(Filled(week, sessionsByDay), DayOrderKey);
      forall i, j :: 0 <= i < j < 7 ==> sorted[i].date < sorted[j].date
  {
    var days := Filled(week, sessionsByDay);
    var r := Rotated(week, days);
    RotatedAscends(week, sessionsByDay);
    DatesAscendSorted(r);
    RotatedRuns(week, sessionsByDay);
    StableSortIsSortBy(days, r, DayOrderKey);
  }

}
