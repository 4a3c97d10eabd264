/**
 * Date arithmetic and the column-to-weekday inference of the scraper: the days until next
 * Sunday, the day of the month `i` days after that Sunday, the weekday column an entry sits
 * in, and the `yyyy-mm-dd` date placed in the week-view address.
 */
module Calendar {
  import opened Wrappers
  import opened Text

  /** The `weekdays` array, as an enumeration. */
  datatype Weekday = Sunday | Monday | Tuesday | Wednesday | Thursday | Friday | Saturday {

    /** The position in `weekdays`, which is also the value of the day comparator's `dayOrder` table. */
    function Index(): (i: nat)
      ensures i < 7
    {
      match this
      case Sunday => 0
      case Monday => 1
      case Tuesday => 2
      case Wednesday => 3
      case Thursday => 4
      case Friday => 5
      case Saturday => 6
    }

    /** The entry of `weekdays`. */
    function Name(): string {
      match this
      case Sunday => "SUNDAY"
      case Monday => "MONDAY"
      case Tuesday => "TUESDAY"
      case Wednesday => "WEDNESDAY"
      case Thursday => "THURSDAY"
      case Friday => "FRIDAY"
      case Saturday => "SATURDAY"
    }
  }

  /** `weekdays[i]`. */
  function WeekdayAt(i: nat): (w: Weekday)
    requires i < 7
    ensures w.Index() == i
  {
    [Sunday, Monday, Tuesday, Wednesday, Thursday, Friday, Saturday][i]
  }

  /** The first two letters of a weekday's name already tell the weekdays apart. */
  lemma NamePrefixDistinct(a: Weekday, b: Weekday)
    ensures |a.Name()| >= 6
    ensures a.Name()[..2] == b.Name()[..2] ==> a == b
  {
    NamePrefix(a);
    NamePrefix(b);
  }

  lemma NamePrefix(w: Weekday)
    ensures |w.Name()| >= 6
    ensures w.Name()[..2] == [w.Name()[0], w.Name()[1]]
    ensures w.Name()[0] == "SMTWTFS"[w.Index()]
    ensures w.Name()[1] == "UOUEHRA"[w.Index()]
  {
  }

  /**
   * `daysUntilNextSunday` for `today.getDay() == weekday`: a whole week on a Sunday,
   * otherwise the days left until the coming Sunday.
   */
  function DaysUntilNextSunday(weekday: nat): (n: nat)
    requires weekday < 7
    ensures 1 <= n <= 7
    ensures (weekday + n) % 7 == 0
  {
    if weekday == 0 then 7 else 7 - weekday
  }

  /** The target Sunday is day `sunday` of a month with `monthLength` days. */
  predicate ValidMonth(sunday: nat, monthLength: nat) {
    28 <= monthLength <= 31 && 1 <= sunday <= monthLength
  }

  /**
   * `getDate()` of the date `offset` days after the Sunday (`setDate(getDate() + offset)`),
   * which rolls over into the following month past its last day.
   */
  function DateAfter(sunday: nat, monthLength: nat, offset: nat): (d: nat)
    requires ValidMonth(sunday, monthLength) && offset <= 6
    ensures 1 <= d <= monthLength
    ensures d == sunday + offset || d + monthLength == sunday + offset
  {
    if sunday + offset <= monthLength then sunday + offset else sunday + offset - monthLength
  }

  /** The seven days of one week have seven different days of the month. */
  lemma WeekDatesDistinct(sunday: nat, monthLength: nat, i: nat, j: nat)
    requires ValidMonth(sunday, monthLength) && i <= 6 && j <= 6 && i != j
    ensures DateAfter(sunday, monthLength, i) != DateAfter(sunday, monthLength, j)
  {
  }

  /** Position and width of the seven-column planner container. */
  datatype Container = Container(left: real, width: real)

  /** Layout in which the column arithmetic is defined (a zero width would give NaN). */
  predicate ValidContainer(container: Option<Container>) {
    container.Some? ==> container.value.width > 0.0
  }

  function Min(a: int, b: int): int {
    if a <= b then a else b
  }

  function Max(a: int, b: int): int {
    if a >= b then a else b
  }

  /**
   * `getDayOfWeek`: the column, among seven of equal width, that the entry's left edge falls
   * in, clamped to 0..6; 0 when no planner container was found.
   */
  function DayOfWeek(entryLeft: real, container: Option<Container>): (i: nat)
    requires ValidContainer(container)
    ensures i <= 6
    ensures container.None? ==> i == 0
  {
    match container
    case None => 0
    case Some(c) =>
      var columnWidth := c.width / 7.0;
      var dayIndex := ((entryLeft - c.left) / columnWidth).Floor;
      Min(Max(dayIndex, 0), 6)
  }

  /** The column index reaches `k` exactly when the left edge reaches the k-th column boundary. */
  lemma DayOfWeekThreshold(entryLeft: real, c: Container, k: int)
    requires c.width > 0.0 && 1 <= k <= 6
    ensures DayOfWeek(entryLeft, Some(c)) >= k <==> entryLeft - c.left >= k as real * (c.width / 7.0)
  {
    var columnWidth := c.width / 7.0;
    var x := (entryLeft - c.left) / columnWidth;
    assert DayOfWeek(entryLeft, Some(c)) >= k <==> x.Floor >= k;
    assert x.Floor >= k <==> x >= k as real;
    ScaledThreshold(entryLeft - c.left, columnWidth, k as real);
  }

  /** Dividing by a positive width keeps a comparison with `k` as comparing with `k` widths. */
  lemma ScaledThreshold(d: real, w: real, k: real)
    requires w > 0.0
    ensures d / w >= k <==> d >= k * w
  {
    var x := d / w;
    assert x * w == d;
    assert x * w - k * w == (x - k) * w;
    if x >= k {
      assert (x - k) * w >= 0.0;
    } else {
      assert (k - x) * w > 0.0;
    }
  }

  /** For a fixed container, moving an entry to the right never moves it to an earlier day. */
  lemma DayOfWeekMonotone(left1: real, left2: real, c: Container)
    requires c.width > 0.0 && left1 <= left2
    ensures DayOfWeek(left1, Some(c)) <= DayOfWeek(left2, Some(c))
  {
    var k := DayOfWeek(left1, Some(c));
    if k >= 1 {
      DayOfWeekThreshold(left1, c, k);
      DayOfWeekThreshold(left2, c, k);
    }
  }

  /**
   * The entry lands on day `k` exactly when its left edge lies between the k-th and the
   * (k+1)-th column boundaries; the first and last columns extend without bound.
   */
  lemma DayOfWeekColumn(entryLeft: real, c: Container, k: nat)
    requires c.width > 0.0 && k <= 6
    ensures DayOfWeek(entryLeft, Some(c)) == k <==>
      && (k == 0 || entryLeft - c.left >= k as real * (c.width / 7.0))
      && (k == 6 || entryLeft - c.left < (k + 1) as real * (c.width / 7.0))
  {
    if k >= 1 {
      DayOfWeekThreshold(entryLeft, c, k);
    }
    if k <= 5 {
      DayOfWeekThreshold(entryLeft, c, k + 1);
    }
  }

  /** `String(n).padStart(2, "0")` for the month and the day. */
  function TwoDigits(n: nat): string {
    PadStart2(NatToString(n))
  }

  /** The `yyyy-mm-dd` form of the Sunday; `monthIndex` is `getMonth()`, counted from 0. */
  function FormatDate(year: nat, monthIndex: nat, day: nat): string {
    NatToString(year) + "-" + TwoDigits(monthIndex + 1) + "-" + TwoDigits(day)
  }

  lemma TwoDigitsValue(n: nat)
    requires n <= 99
    ensures |TwoDigits(n)| == 2 && IsDigits(TwoDigits(n)) && DigitsValue(TwoDigits(n)) == n
  {
    if n < 10 {
      LeadingZeroValue(NatToString(n));
    } else {
      assert NatToString(n) == NatToString(n / 10) + [DigitChar(n % 10)];
    }
  }

  lemma FourDigitYear(year: nat)
    requires 1000 <= year <= 9999
    ensures |NatToString(year)| == 4
  {
    assert NatToString(year) == NatToString(year / 10) + [DigitChar(year % 10)];
    assert NatToString(year / 10) == NatToString(year / 10 / 10) + [DigitChar(year / 10 % 10)];
    assert NatToString(year / 10 / 10) == NatToString(year / 10 / 10 / 10) + [DigitChar(year / 10 / 10 % 10)];
  }

  /**
   * For a four-digit year the date text has the fixed `yyyy-mm-dd` layout, and reading its
   * three fields back as numbers gives the year, the month counted from 1, and the day.
   */
  lemma FormatDateFields(year: nat, monthIndex: nat, day: nat)
    requires 1000 <= year <= 9999 && monthIndex <= 11 && 1 <= day <= 31
    ensures var r := FormatDate(year, monthIndex, day);
      && |r| == 10 && r[4] == '-' && r[7] == '-'
      && IsDigits(r[..4]) && DigitsValue(r[..4]) == year
      && IsDigits(r[5..7]) && DigitsValue(r[5..7]) == monthIndex + 1
      && IsDigits(r[8..]) && DigitsValue(r[8..]) == day
  {
    FourDigitYear(year);
    TwoDigitsValue(monthIndex + 1);
    TwoDigitsValue(day);
    var y, m, d := NatToString(year), TwoDigits(monthIndex + 1), TwoDigits(day);
    DateLayout(y, m, d);
    assert FormatDate(year, monthIndex, day) == y + "-" + m + "-" + d;
  }

  /** Where the three fields of a `yyyy-mm-dd` text sit. */
  lemma DateLayout(y: string, m: string, d: string)
    requires |y| == 4 && |m| == 2 && |d| == 2
    ensures var r := y + "-" + m + "-" + d;
      |r| == 10 && r[4] == '-' && r[7] == '-' && r[..4] == y && r[5..7] == m && r[8..] == d
  {
    var r := y + "-" + m + "-" + d;
    assert r[..4] == y;
    assert r[5..7] == m;
    assert r[8..] == d;
  }
}
