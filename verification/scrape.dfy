/**
 * The normalisation pass of `scrapeLifetimeSchedule` from the entries on the page to
 * `scheduleData.days`: extraction in the page, the day map, the day sort and the gap fill.
 */
module Scrape {
  import opened Text
  import opened Calendar
  import opened Collector
  import opened Sessions
  import opened Schedule
  import opened GapFill
  import opened StableSort

  /** The seven day lists the page returns. */
  function WeekLists(entries: seq<RawEntry>, week: Week): (r: seq<seq<Session>>)
    requires week.Valid()
    ensures |r| == 7
  {
    seq(7, d requires 0 <= d < 7 => SortBy(Bucket(PickleballEntries(entries), week, d), StartKey))
  }

  /** `scheduleData.days`: the filled days, sorted by date, with the gaps filled. */
  function ScheduleDays(entries: seq<RawEntry>, week: Week): (r: seq<Day>)
    requires week.Valid()
    ensures |r| == 7
  {
    Arranged(week, WeekLists(entries, week))
  }

  /** The pass from the entries on the page to `scheduleData.days`. */
  method ScrapeWeek(entries: seq<RawEntry>, week: Week) returns (days: seq<Day>)
    requires week.Valid()
    ensures days == ScheduleDays(entries, week)
  {
    var weekScheduleData := ExtractWeek(entries, week);
    assert weekScheduleData == WeekLists(entries, week);
    var dayMap := BuildDayMap(week);
    Fill(dayMap, week, weekScheduleData);
    var values := dayMap.Values();
    var daysArray := new Day[7](i requires 0 <= i < 7 && |values| == 7 => values[i]);
    assert daysArray[..] == Filled(week, weekScheduleData);
    SortDays(daysArray);
    FillGaps(daysArray);
    days := daysArray[..];
  }

  // ---- what the pass promises ----

  /** The days as the pass leaves them, for any seven lists the page returns. */
  function Arranged(week: Week, lists: seq<seq<Session>>): (r: seq<Day>)
    requires week.Valid() && |lists| == 7
    ensures |r| == 7
  {
    var filled := Filled(week, lists);
    SortByCorrect(filled, DayOrderKey);
    GapFilled(SortBy(filled, DayOrderKey))
  }

  /** Where the sorted week puts column `c`. */
  function Position(week: Week, c: nat): (p: nat)
    requires week.Valid() && c < 7
    ensures p < 7
  {
    var k := week.monthLength - week.sunday + 1;
    if k >= 7 then c else if c >= k then c - k else c + 7 - k
  }

  /** The column the sorted week shows at position `j`. */
  function Column(week: Week, j: nat): (c: nat)
    requires week.Valid() && j < 7
    ensures c < 7 && Position(week, c) == j
  {
    var k := week.monthLength - week.sunday + 1;
    if k >= 7 then j else if j < 7 - k then j + k else j - (7 - k)
  }

  /** The day sort moves column `c` to `Position(week, c)`. */
  lemma SortedPositions(week: Week, lists: seq<seq<Session>>)
    requires week.Valid() && |lists| == 7
    ensures var sorted := SortBy(Filled(week, lists), DayOrderKey);
      && |sorted| == 7
      && forall c :: 0 <= c < 7 ==> Position(week, c) < 7 && sorted[Position(week, c)] == Filled(week, lists)[c]
  {
    WeekOrder(week, lists);
    var k := week.monthLength - week.sunday + 1;
    if k < 7 {
      RotationMoves(Filled(week, lists), k);
    }
  }

  /** Rotating seven days left by `k` moves day `c` to `c - k`, counted round the week. */
  lemma RotationMoves(days: seq<Day>, k: nat)
    requires |days| == 7 && 0 < k < 7
    ensures forall c :: 0 <= c < 7 ==> (days[k..] + days[..k])[if c >= k then c - k else c + 7 - k] == days[c]
  {
    var r := days[k..] + days[..k];
    forall c | 0 <= c < 7 ensures r[if c >= k then c - k else c + 7 - k] == days[c] {
      if c >= k {
        assert r[c - k] == days[k..][c - k];
      } else {
        assert r[c + 7 - k] == days[..k][c];
      }
    }
  }

  /** The arranged week's dates ascend strictly. */
  lemma ArrangedDates(week: Week, lists: seq<seq<Session>>)
    requires week.Valid() && |lists| == 7
    ensures var r := Arranged(week, lists);
      forall i, j :: 0 <= i < j < 7 ==> r[i].date < r[j].date
  {
    WeekOrder(week, lists);
    GapFillKeeps(SortBy(Filled(week, lists), DayOrderKey));
  }

  /**
   * Column `c` of the week ends up at `Position(week, c)` with its weekday and date, its
   * `NAME date` header, and not highlighted.
   */
  lemma ArrangedDay(week: Week, lists: seq<seq<Session>>, c: nat)
    requires week.Valid() && |lists| == 7 && c < 7
    ensures var d := Arranged(week, lists)[Position(week, c)];
      && d.name == WeekdayAt(c) && d.date == week.DateOf(c)
      && d.header == d.name.Name() + " " + NatToString(d.date) && !d.highlight
  {
    var sorted := SortBy(Filled(week, lists), DayOrderKey);
    SortedPositions(week, lists);
    GapFillKeeps(sorted);
    assert sorted[Position(week, c)] == Filled(week, lists)[c];
  }

  /**
   * Every day of the arranged week has sessions when some list has one, and every day is
   * empty when every list is.
   */
  lemma ArrangedSessions(week: Week, lists: seq<seq<Session>>)
    requires week.Valid() && |lists| == 7
    ensures (exists d :: 0 <= d < 7 && lists[d] != []) ==> forall i :: 0 <= i < 7 ==> Arranged(week, lists)[i].sessions != []
    ensures (forall d :: 0 <= d < 7 ==> lists[d] == []) ==> forall i :: 0 <= i < 7 ==> Arranged(week, lists)[i].sessions == []
  {
    var filled := Filled(week, lists);
    var sorted := SortBy(filled, DayOrderKey);
    SortedPositions(week, lists);
    GapFillKeeps(sorted);
    if d :| 0 <= d < 7 && lists[d] != [] {
      assert sorted[Position(week, d)].sessions != [];
      GapFillFills(sorted, TemplateIndex(sorted).value);
    } else {
      forall i | 0 <= i < 7 ensures sorted[i].sessions == [] {
        assert sorted[i] == filled[Column(week, i)];
      }
    }
  }

  /** A column with sessions of its own keeps exactly them; the gap fill does not touch it. */
  lemma ArrangedKeepsOwn(week: Week, lists: seq<seq<Session>>, c: nat)
    requires week.Valid() && |lists| == 7 && c < 7 && lists[c] != []
    ensures Arranged(week, lists)[Position(week, c)].sessions == lists[c]
  {
    SortedPositions(week, lists);
    GapFillKeeps(SortBy(Filled(week, lists), DayOrderKey));
  }

  /**
   * Each weekday sits where the day sort puts its column, every day carries its own weekday's
   * date, and no weekday appears twice.
   */
  lemma ArrangedWeekdays(week: Week, lists: seq<seq<Session>>)
    requires week.Valid() && |lists| == 7
    ensures var r := Arranged(week, lists);
      && (forall w: Weekday :: r[Position(week, w.Index())].name == w)
      && (forall i :: 0 <= i < 7 ==> r[i].date == week.DateOf(r[i].name.Index()))
      && (forall i, j :: 0 <= i < j < 7 ==> r[i].name != r[j].name)
  {
    var r := Arranged(week, lists);
    forall i | 0 <= i < 7 ensures r[i].name == WeekdayAt(Column(week, i)) && r[i].date == week.DateOf(Column(week, i)) {
      ArrangedDay(week, lists, Column(week, i));
    }
    forall w: Weekday ensures r[Position(week, w.Index())].name == w {
      ArrangedDay(week, lists, w.Index());
      WeekdayIndexInjective(w);
    }
  }

  /** Every arranged day has its `NAME date` header and is not highlighted. */
  lemma ArrangedHeaders(week: Week, lists: seq<seq<Session>>)
    requires week.Valid() && |lists| == 7
    ensures var r := Arranged(week, lists);
      forall i :: 0 <= i < 7 ==> r[i].header == r[i].name.Name() + " " + NatToString(r[i].date) && !r[i].highlight
  {
    var r := Arranged(week, lists);
    forall i | 0 <= i < 7 ensures r[i].header == r[i].name.Name() + " " + NatToString(r[i].date) && !r[i].highlight {
      ArrangedDay(week, lists, Column(week, i));
    }
  }

  /**
   * The schedule has seven days in ascending order of date: every weekday once, at the
   * position the day sort gives its column, dated as the week says, each with its
   * `NAME date` header and not highlighted.
   */
  lemma ScheduleShape(entries: seq<RawEntry>, week: Week)
    requires week.Valid()
    ensures var r := ScheduleDays(entries, week);
      && (forall i, j :: 0 <= i < j < 7 ==> r[i].date < r[j].date)
      && (forall w: Weekday :: r[Position(week, w.Index())].name == w)
      && (forall i, j :: 0 <= i < j < 7 ==> r[i].name != r[j].name)
      && (forall i :: 0 <= i < 7 ==> r[i].date == week.DateOf(r[i].name.Index()))
      && (forall i :: 0 <= i < 7 ==> r[i].header == r[i].name.Name() + " " + NatToString(r[i].date) && !r[i].highlight)
  {
    var lists := WeekLists(entries, week);
    assert ScheduleDays(entries, week) == Arranged(week, lists);
    ArrangedDates(week, lists);
    ArrangedWeekdays(week, lists);
    ArrangedHeaders(week, lists);
  }

  /** All seven lists are empty exactly when the page has no pickleball entry. */
  lemma WeekListsEmpty(entries: seq<RawEntry>, week: Week)
    requires week.Valid()
    ensures PickleballEntries(entries) == [] <==> forall d :: 0 <= d < 7 ==> WeekLists(entries, week)[d] == []
  {
    var pickleball := PickleballEntries(entries);
    BucketSizes(pickleball, week);
    forall d | 0 <= d < 7 ensures |WeekLists(entries, week)[d]| == |Bucket(pickleball, week, d)| {
      SortByCorrect(Bucket(pickleball, week, d), StartKey);
    }
  }

  /**
   * Every day of the schedule has sessions exactly when the page has a pickleball entry;
   * without one every day is empty.
   */
  lemma ScheduleEmptyIff(entries: seq<RawEntry>, week: Week)
    requires week.Valid()
    ensures PickleballEntries(entries) != [] <==> forall i :: 0 <= i < 7 ==> ScheduleDays(entries, week)[i].sessions != []
    ensures PickleballEntries(entries) == [] <==> forall i :: 0 <= i < 7 ==> ScheduleDays(entries, week)[i].sessions == []
  {
    var lists := WeekLists(entries, week);
    var r := Arranged(week, lists);
    assert ScheduleDays(entries, week) == r;
    WeekListsEmpty(entries, week);
    ArrangedSessions(week, lists);
  }

  /**
   * A weekday whose column has pickleball entries shows exactly their sessions, sorted by
   * start time, at the position the day sort gives its column.
   */
  lemma OwnSessionsKept(entries: seq<RawEntry>, week: Week, w: Weekday)
    requires week.Valid() && Bucket(PickleballEntries(entries), week, w.Index()) != []
    ensures var d := ScheduleDays(entries, week)[Position(week, w.Index())];
      d.name == w && d.sessions == SortBy(Bucket(PickleballEntries(entries), week, w.Index()), StartKey)
  {
    var lists := WeekLists(entries, week);
    var c := w.Index();
    assert ScheduleDays(entries, week) == Arranged(week, lists);
    SortByCorrect(Bucket(PickleballEntries(entries), week, c), StartKey);
    ArrangedKeepsOwn(week, lists, c);
    ArrangedDay(week, lists, c);
    WeekdayIndexInjective(w);
  }
}
