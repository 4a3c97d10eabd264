/**
 * The body of the `page.evaluate` callback: each pickleball entry becomes a session on the
 * weekday of its column, `sessionsByDay[day]` collects them in document order, and each
 * day's list is then sorted by start time.
 */
module Sessions {
  import opened Wrappers
  import opened Text
  import opened Calendar
  import opened Clock
  import opened TimeParser
  import opened Attributes
  import opened Collector
  import opened StableSort

  /** The selectors of the labelled start and end elements `parseTimeString` falls back to. */
  const StartTimeSelector: string := ".start-time, [class*='start-time'], [class*='startTime']"
  const EndTimeSelector: string := ".end-time, [class*='end-time'], [class*='endTime']"

  /** A session as pushed into `sessionsByDay`; `None` stands for an `undefined` field. */
  datatype Session = Session(
    id: string, startTime: string, endTime: string, title: string,
    subtitle: Option<string>, location: string, status: Option<Status>)

  /**
   * The week being scraped: the planner container (if the page has one), and the Sunday
   * the week starts on, as a day of a month of `monthLength` days.
   */
  datatype Week = Week(container: Option<Container>, sunday: nat, monthLength: nat) {
    predicate Valid() {
      ValidContainer(container) && ValidMonth(sunday, monthLength)
    }

    /** `getDateForDayIndex(day)`. */
    function DateOf(day: nat): (d: nat)
      requires Valid() && day < 7
      ensures 1 <= d <= monthLength
    {
      DateAfter(sunday, monthLength, day)
    }
  }

  /** `${weekdays[day].toLowerCase()}-${date}-${index}`. */
  function SessionId(day: Weekday, date: nat, index: nat): string {
    ToLower(day.Name()) + "-" + NatToString(date) + "-" + NatToString(index)
  }

  /** A weekday's name is all capital letters. */
  lemma NameLetters(w: Weekday)
    ensures forall i :: 0 <= i < |w.Name()| ==> 'A' <= w.Name()[i] <= 'Z'
  {
  }

  predicate DashFree(s: string) {
    forall i :: 0 <= i < |s| ==> s[i] != '-'
  }

  /** Text without a dash splits back apart at the first dash after it. */
  lemma SplitAtDash(u: string, v: string, u': string, v': string)
    requires DashFree(u) && DashFree(u')
    requires u + "-" + v == u' + "-" + v'
    ensures u == u' && v == v'
  {
    var s := u + "-" + v;
    assert |u| == |u'| by {
      assert s[|u|] == '-';
      assert (u' + "-" + v')[|u'|] == '-';
    }
    assert u == s[..|u|];
    assert v == s[|u| + 1..];
  }

  /** Three parts joined by dashes, the first two without one, split back apart. */
  lemma ThreePartsInjective(a: string, b: string, c: string, a': string, b': string, c': string)
    requires DashFree(a) && DashFree(b) && DashFree(a') && DashFree(b')
    requires a + "-" + b + "-" + c == a' + "-" + b' + "-" + c'
    ensures a == a' && b == b' && c == c'
  {
    assert a + "-" + b + "-" + c == a + "-" + (b + "-" + c);
    assert a' + "-" + b' + "-" + c' == a' + "-" + (b' + "-" + c');
    SplitAtDash(a, b + "-" + c, a', b' + "-" + c');
    SplitAtDash(b, c, b', c');
  }

  /** Lower-casing keeps the weekday names apart. */
  lemma LowerNameInjective(a: Weekday, b: Weekday)
    requires ToLower(a.Name()) == ToLower(b.Name())
    ensures a == b
  {
    NamePrefixDistinct(a, b);
    NameLetters(a);
    NameLetters(b);
    var la, lb := ToLower(a.Name()), ToLower(b.Name());
    assert LowerChar(a.Name()[0]) == la[0] == lb[0] == LowerChar(b.Name()[0]);
    assert LowerChar(a.Name()[1]) == la[1] == lb[1] == LowerChar(b.Name()[1]);
    assert a.Name()[..2] == b.Name()[..2];
  }

  /** The parts of a session id hold no dash. */
  lemma IdPartsDashFree(w: Weekday, n: nat)
    ensures DashFree(ToLower(w.Name())) && DashFree(NatToString(n))
  {
    NameLetters(w);
  }

  /**
   * A session id names its weekday, date and index unambiguously: different sessions of the
   * extraction (different indices) never share an id, and neither do sessions of different
   * days.
   */
  lemma SessionIdInjective(a: Weekday, dateA: nat, indexA: nat, b: Weekday, dateB: nat, indexB: nat)
    requires SessionId(a, dateA, indexA) == SessionId(b, dateB, indexB)
    ensures a == b && dateA == dateB && indexA == indexB
  {
    IdPartsDashFree(a, dateA);
    IdPartsDashFree(b, dateB);
    ThreePartsInjective(ToLower(a.Name()), NatToString(dateA), NatToString(indexA),
                        ToLower(b.Name()), NatToString(dateB), NatToString(indexB));
    LowerNameInjective(a, b);
  }

  /** The column of an entry. */
  function DayOf(e: RawEntry, week: Week): (d: nat)
    requires week.Valid()
    ensures d < 7
  {
    DayOfWeek(e.left, week.container)
  }

  /** The session built from the pickleball entry at `index` of the filtered list. */
  function SessionOf(e: RawEntry, index: nat, week: Week): Session
    requires week.Valid()
  {
    var title := Chosen(e.found, TitleSelectors, DefaultTitle);
    var times := ParseTimeString(e.descendants, Query(e.found, StartTimeSelector), Query(e.found, EndTimeSelector), e.text);
    var day := DayOf(e, week);
    Session(
      SessionId(WeekdayAt(day), week.DateOf(day), index), times.startTime, times.endTime, title,
      Subtitle(SkillLevel(title)), Chosen(e.found, LocationSelectors, DefaultLocation),
      StatusOf(Query(e.found, StatusSelector)))
  }

  /** The columns of the entries `es`, in order. */
  function Columns(es: seq<RawEntry>, week: Week): (r: seq<nat>)
    requires week.Valid()
    ensures |r| == |es| && forall i :: 0 <= i < |es| ==> r[i] == DayOf(es[i], week) && r[i] < 7
  {
    seq(|es|, i requires 0 <= i < |es| => DayOf(es[i], week))
  }

  /** The sessions of the entries `es`, each numbered by its position in `es`. */
  function Built(es: seq<RawEntry>, week: Week): (r: seq<Session>)
    requires week.Valid()
    ensures |r| == |es| && forall i :: 0 <= i < |es| ==> r[i] == SessionOf(es[i], i, week)
  {
    seq(|es|, i requires 0 <= i < |es| => SessionOf(es[i], i, week))
  }

  /** The elements of `xs` whose column is `day`, in order. */
  function Select<S>(xs: seq<S>, columns: seq<nat>, day: nat): seq<S>
    requires |xs| == |columns|
  {
    if |xs| == 0 then []
    else
      var last := |xs| - 1;
      Select(xs[..last], columns[..last], day) + (if columns[last] == day then [xs[last]] else [])
  }

  /** Taking one more element extends the list of its column by it, and no other list. */
  lemma SelectStep<S>(xs: seq<S>, columns: seq<nat>, n: nat)
    requires |xs| == |columns| && n < |xs|
    ensures forall d ::
      Select(xs[..n + 1], columns[..n + 1], d) == Select(xs[..n], columns[..n], d) + (if columns[n] == d then [xs[n]] else [])
  {
    assert xs[..n + 1][..n] == xs[..n];
    assert columns[..n + 1][..n] == columns[..n];
  }

  /** Appending the next element to its column's list keeps the seven lists equal to `Select`. */
  lemma PlaceStep<S>(before: seq<seq<S>>, after: seq<seq<S>>, xs: seq<S>, columns: seq<nat>, n: nat)
    requires |xs| == |columns| && n < |xs| && columns[n] < 7 && |before| == 7
    requires forall d :: 0 <= d < 7 ==> before[d] == Select(xs[..n], columns[..n], d)
    requires after == before[columns[n] := before[columns[n]] + [xs[n]]]
    ensures forall d :: 0 <= d < 7 ==> after[d] == Select(xs[..n + 1], columns[..n + 1], d)
  {
    SelectStep(xs, columns, n);
  }

  /**
   * `sessionsByDay[day]` once the entries `es` of the filtered list are placed: the sessions
   * of the entries in that column, in list order.
   */
  function Bucket(es: seq<RawEntry>, week: Week, day: nat): seq<Session>
    requires week.Valid()
  {
    Select(Built(es, week), Columns(es, week), day)
  }

  /**
   * `getTimeValue(startTime)`, the sort key. A start time that is not clock-shaped can only
   * be the labelled start element's text, on which the source's comparator yields NaN;
   * such a session is keyed as midnight here.
   */
  function StartKey(s: Session): int {
    if ClockShaped(s.startTime) then TimeValue(s.startTime) else 0
  }

  /** One pass of the `forEach`: the session the entry at `index` of the filtered list becomes. */
  method BuildSession(entry: RawEntry, index: nat, week: Week) returns (session: Session)
    requires week.Valid()
    ensures session == SessionOf(entry, index, week)
  {
    var title := SelectText(entry.found, TitleSelectors, DefaultTitle);
    var times := ParseTimeString(entry.descendants, Query(entry.found, StartTimeSelector),
                                 Query(entry.found, EndTimeSelector), entry.text);
    var location := SelectText(entry.found, LocationSelectors, DefaultLocation);
    var skillLevel := SkillLevel(title);
    var status := StatusOf(Query(entry.found, StatusSelector));
    var day := DayOfWeek(entry.left, week.container);
    var date := DateAfter(week.sunday, week.monthLength, day);
    session := Session(SessionId(WeekdayAt(day), date, index), times.startTime, times.endTime,
                       title, Subtitle(skillLevel), location, status);
  }

  /** `sessionsByDay[dayIndex].push(...)` for each pickleball entry in turn. */
  method PlaceSessions(pickleball: seq<RawEntry>, week: Week) returns (sessionsByDay: array<seq<Session>>)
    requires week.Valid()
    ensures fresh(sessionsByDay) && sessionsByDay.Length == 7
    ensures forall d :: 0 <= d < 7 ==> sessionsByDay[d] == Bucket(pickleball, week, d)
  {
    ghost var built := Built(pickleball, week);
    ghost var columns := Columns(pickleball, week);
    sessionsByDay := new seq<Session>[7](_ => []);
    var index := 0;
    while index < |pickleball|
      invariant index <= |pickleball| && sessionsByDay.Length == 7
      invariant forall d :: 0 <= d < 7 ==> sessionsByDay[d] == Select(built[..index], columns[..index], d)
    {
      var session := BuildSession(pickleball[index], index, week);
      var day := DayOfWeek(pickleball[index].left, week.container);
      assert session == built[index] && day == columns[index];
      ghost var before := sessionsByDay[..];
      sessionsByDay[day] := sessionsByDay[day] + [session];
      PlaceStep(before, sessionsByDay[..], built, columns, index);
      index := index + 1;
    }
    assert built[..index] == built && columns[..index] == columns;
  }

  /** `sessions.sort(...)` with the comparator `key(a) - key(b)`, on an array holding the day's list. */
  method SortSessions(sessions: seq<Session>, key: Session -> int) returns (sorted: seq<Session>)
    ensures sorted == SortBy(sessions, key)
  {
    var a := new Session[|sessions|](i requires 0 <= i < |sessions| => sessions[i]);
    assert a[..] == sessions;
    InsertionSort(a, key);
    sorted := a[..];
  }

  /** `sessionsByDay.forEach(sessions => sessions.sort(...))`: each day's list sorted by `key`, in place. */
  method SortEachDay(sessionsByDay: array<seq<Session>>, key: Session -> int)
    modifies sessionsByDay
    ensures forall d :: 0 <= d < sessionsByDay.Length ==> sessionsByDay[d] == SortBy(old(sessionsByDay[d]), key)
  {
    for d := 0 to sessionsByDay.Length
      invariant forall e :: 0 <= e < d ==> sessionsByDay[e] == SortBy(old(sessionsByDay[e]), key)
      invariant forall e :: d <= e < sessionsByDay.Length ==> sessionsByDay[e] == old(sessionsByDay[e])
    {
      sessionsByDay[d] := SortSessions(sessionsByDay[d], key);
    }
  }

  /**
   * The `page.evaluate` callback: the seven day lists, each the pickleball sessions of its
   * column, stably sorted by start time.
   */
  method ExtractWeek(entries: seq<RawEntry>, week: Week) returns (week': seq<seq<Session>>)
    requires week.Valid()
    ensures |week'| == 7
    ensures forall d :: 0 <= d < 7 ==> week'[d] == SortBy(Bucket(PickleballEntries(entries), week, d), StartKey)
  {
    var sessionsByDay := PlaceSessions(PickleballEntries(entries), week);
    SortEachDay(sessionsByDay, StartKey);
    week' := sessionsByDay[..];
  }

  // ---- what the placement and the sort promise ----

  /** An element is selected into the list of its own column. */
  lemma {:induction false} SelectHas<S>(xs: seq<S>, columns: seq<nat>, i: nat)
    requires |xs| == |columns| && i < |xs|
    ensures xs[i] in Select(xs, columns, columns[i])
    decreases |xs|
  {
    var last := |xs| - 1;
    if i < last {
      SelectHas(xs[..last], columns[..last], i);
    }
  }

  /** A column's list holds nothing but elements of that column. */
  lemma {:induction false} SelectOnly<S>(xs: seq<S>, columns: seq<nat>, day: nat, x: S)
    requires |xs| == |columns| && x in Select(xs, columns, day)
    ensures exists i :: 0 <= i < |xs| && columns[i] == day && xs[i] == x
    decreases |xs|
  {
    var last := |xs| - 1;
    if x in Select(xs[..last], columns[..last], day) {
      SelectOnly(xs[..last], columns[..last], day, x);
    }
  }

  /** Over seven columns, the lists together are as long as the input. */
  lemma {:induction false} SelectSizes<S>(xs: seq<S>, columns: seq<nat>)
    requires |xs| == |columns| && forall i :: 0 <= i < |columns| ==> columns[i] < 7
    ensures |Select(xs, columns, 0)| + |Select(xs, columns, 1)| + |Select(xs, columns, 2)| + |Select(xs, columns, 3)|
      + |Select(xs, columns, 4)| + |Select(xs, columns, 5)| + |Select(xs, columns, 6)| == |xs|
    decreases |xs|
  {
    if |xs| > 0 {
      var last := |xs| - 1;
      SelectSizes(xs[..last], columns[..last]);
    }
  }

  /** Every pickleball entry is placed in the list of its column, with its own index. */
  lemma BucketHas(es: seq<RawEntry>, week: Week, i: nat)
    requires week.Valid() && i < |es|
    ensures SessionOf(es[i], i, week) in Bucket(es, week, DayOf(es[i], week))
  {
    SelectHas(Built(es, week), Columns(es, week), i);
  }

  /** A day's list holds nothing but the sessions of the entries in that column. */
  lemma BucketOnly(es: seq<RawEntry>, week: Week, day: nat, s: Session)
    requires week.Valid() && s in Bucket(es, week, day)
    ensures exists i :: 0 <= i < |es| && DayOf(es[i], week) == day && s == SessionOf(es[i], i, week)
  {
    SelectOnly(Built(es, week), Columns(es, week), day, s);
  }

  /** The seven lists together hold as many sessions as there are pickleball entries. */
  lemma BucketSizes(es: seq<RawEntry>, week: Week)
    requires week.Valid()
    ensures |Bucket(es, week, 0)| + |Bucket(es, week, 1)| + |Bucket(es, week, 2)| + |Bucket(es, week, 3)|
      + |Bucket(es, week, 4)| + |Bucket(es, week, 5)| + |Bucket(es, week, 6)| == |es|
  {
    SelectSizes(Built(es, week), Columns(es, week));
  }

  /**
   * Each day's list after the sort: ascending by start time, a permutation of the sessions
   * placed on that day, keeping their document order among equal start times.
   */
  lemma ExtractedDay(entries: seq<RawEntry>, week: Week, d: nat, sorted: seq<Session>)
    requires week.Valid()
    requires sorted == SortBy(Bucket(PickleballEntries(entries), week, d), StartKey)
    ensures Sorted(sorted, StartKey)
    ensures multiset(sorted) == multiset(Bucket(PickleballEntries(entries), week, d))
    ensures SameRuns(sorted, Bucket(PickleballEntries(entries), week, d), StartKey)
  {
    SortByCorrect(Bucket(PickleballEntries(entries), week, d), StartKey);
  }

  /** On a clock-shaped start time the sort key is minutes since midnight, within one day. */
  lemma StartKeyMinutes(s: Session, hour: string, minute: string, period: string)
    requires 1 <= |hour| && IsDigits(hour) && 1 <= DigitsValue(hour) <= 12
    requires 1 <= |minute| && IsDigits(minute) && DigitsValue(minute) <= 59
    requires period == "AM" || period == "PM"
    requires s.startTime == ClockText(hour, minute, period)
    ensures StartKey(s) == ClockMinutes(DigitsValue(hour), DigitsValue(minute), period == "PM")
    ensures 0 <= StartKey(s) <= 1439
  {
    TimeValueIsClockMinutes(hour, minute, period);
  }
}
