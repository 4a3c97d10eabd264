/**
 * `getTimeValue`, the key of the per-day session sort: a `"H:MM PERIOD"` text read as minutes
 * since midnight. The text is split at its first space into the clock and the period, the
 * clock at its colon into hours and minutes; only the exact period `"PM"` adds twelve
 * hours (below 12) and only `"AM"` maps hour 12 to 0, so any other period, including a
 * lower-case `"pm"`, leaves the hours as written.
 */
module Clock {
  import opened Wrappers
  import opened Text

  /** `timeStr.split(" ")[0]`. */
  function TimeField(t: string): string {
    match IndexOf(t, " ")
    case None => t
    case Some(i) => t[..i]
  }

  /** `timeStr.split(" ")[1]`; `""` stands for `undefined`, which equals neither period either. */
  function PeriodField(t: string): string {
    match IndexOf(t, " ")
    case None => ""
    case Some(i) =>
      var rest := t[i + 1..];
      match IndexOf(rest, " ")
      case None => rest
      case Some(j) => rest[..j]
  }

  /**
   * The texts on which `getTimeValue` yields a number: the clock field is digits, a colon and
   * digits. (On any other text `Number` gives NaN and the comparator's answer is meaningless.)
   */
  predicate ClockShaped(t: string) {
    var time := TimeField(t);
    match IndexOf(time, ":")
    case None => false
    case Some(c) => 0 < c && c + 1 < |time| && IsDigits(time[..c]) && IsDigits(time[c + 1..])
  }

  function Hours(t: string): nat
    requires ClockShaped(t)
  {
    var time := TimeField(t);
    var c := IndexOf(time, ":").value;
    DigitsValue(time[..c])
  }

  function Minutes(t: string): nat
    requires ClockShaped(t)
  {
    var time := TimeField(t);
    var c := IndexOf(time, ":").value;
    DigitsValue(time[c + 1..])
  }

  /** The two period adjustments of `getTimeValue`, applied in turn. */
  function AdjustHours(hours: nat, period: string): nat {
    var hours := if period == "PM" && hours < 12 then hours + 12 else hours;
    if period == "AM" && hours == 12 then 0 else hours
  }

  /** `getTimeValue(timeStr)`. */
  function TimeValue(t: string): int
    requires ClockShaped(t)
  {
    AdjustHours(Hours(t), PeriodField(t)) * 60 + Minutes(t)
  }

  /** Minutes since midnight of a 12-hour clock reading, the meaning the sort key is after. */
  function ClockMinutes(hour: nat, minute: nat, pm: bool): nat {
    (hour % 12 + (if pm then 12 else 0)) * 60 + minute
  }

  /** The clock `hour:minute period` as text. */
  function ClockText(hour: string, minute: string, period: string): string {
    hour + ":" + minute + " " + period
  }

  predicate NoSpace(s: string) {
    forall i :: 0 <= i < |s| ==> s[i] != ' '
  }

  /** Splitting a clock text gives back its hour, minute and period. */
  lemma {:induction false} ClockTextFields(hour: string, minute: string, period: string)
    requires 1 <= |hour| && IsDigits(hour) && 1 <= |minute| && IsDigits(minute) && NoSpace(period)
    ensures var t := ClockText(hour, minute, period);
      && ClockShaped(t) && Hours(t) == DigitsValue(hour) && Minutes(t) == DigitsValue(minute)
      && PeriodField(t) == period
  {
    var t := ClockText(hour, minute, period);
    var time := hour + ":" + minute;
    var sp := |time|;
    assert t == time + " " + period;
    OccursAtChar(t, ' ', sp);
    forall j | 0 <= j < sp ensures !OccursAt(t, " ", j) {
      OccursAtChar(t, ' ', j);
      assert t[j] == time[j];
    }
    IndexOfIs(t, " ", sp);
    assert TimeField(t) == time;
    OccursAtChar(time, ':', |hour|);
    forall j | 0 <= j < |hour| ensures !OccursAt(time, ":", j) {
      OccursAtChar(time, ':', j);
      assert time[j] == hour[j];
    }
    IndexOfIs(time, ":", |hour|);
    assert time[..|hour|] == hour && time[|hour| + 1..] == minute;
    var rest := t[sp + 1..];
    assert rest == period;
    forall j | 0 <= j ensures !OccursAt(rest, " ", j) {
      OccursAtChar(rest, ' ', j);
    }
  }

  /**
   * On a well-formed 12-hour clock with an upper-case period the sort key is the minutes
   * since midnight: it lies in 0..1439, 12 AM counts the minutes alone and 12 PM adds 720.
   */
  lemma TimeValueIsClockMinutes(hour: string, minute: string, period: string)
    requires 1 <= |hour| && IsDigits(hour) && 1 <= DigitsValue(hour) <= 12
    requires 1 <= |minute| && IsDigits(minute) && DigitsValue(minute) <= 59
    requires period == "AM" || period == "PM"
    ensures var t := ClockText(hour, minute, period);
      && ClockShaped(t)
      && TimeValue(t) == ClockMinutes(DigitsValue(hour), DigitsValue(minute), period == "PM")
      && 0 <= TimeValue(t) <= 1439
      && (DigitsValue(hour) == 12 && period == "AM" ==> TimeValue(t) == DigitsValue(minute))
      && (DigitsValue(hour) == 12 && period == "PM" ==> TimeValue(t) == 720 + DigitsValue(minute))
  {
    ClockTextFields(hour, minute, period);
    TwelveHourAdjust(DigitsValue(hour), period);
  }

  lemma TwelveHourAdjust(h: nat, period: string)
    requires 1 <= h <= 12 && (period == "AM" || period == "PM")
    ensures AdjustHours(h, period) == h % 12 + (if period == "PM" then 12 else 0)
  {
    assert "AM" != "PM";
    if h == 12 {
      assert h % 12 == 0;
    } else {
      assert h % 12 == h;
    }
  }

  /** A period that is not exactly `"AM"` or `"PM"` (such as `"pm"`) leaves the hours as written. */
  lemma OtherPeriodKeepsHours(hour: string, minute: string, period: string)
    requires 1 <= |hour| && IsDigits(hour) && 1 <= |minute| && IsDigits(minute) && NoSpace(period)
    requires period != "AM" && period != "PM"
    ensures var t := ClockText(hour, minute, period);
      ClockShaped(t) && TimeValue(t) == DigitsValue(hour) * 60 + DigitsValue(minute)
  {
    ClockTextFields(hour, minute, period);
  }
}
