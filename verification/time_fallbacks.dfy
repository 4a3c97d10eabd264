/**
 * What `parseTimeString` does when no range format applies: a range written without spaces
 * around its separator is passed over, the labelled start/end texts come next, then the
 * clock and period tokens of the entry's text, and with nothing usable the fixed default.
 */
module TimeFallbacks {
  import opened Wrappers
  import opened Text
  import opened Clock
  import opened TimeParser
  import opened RangeFormats

  /** `H:MM-H:MM P`: a range with no whitespace around its dash. */
  function TightText(h1: string, m1: string, h2: string, m2: string, period: string): string {
    h1 + ":" + m1 + "-" + h2 + ":" + m2 + " " + period
  }

  /** Without whitespace before every `t` and `-`, none of the four formats matches anywhere. */
  lemma UnspacedNoFormat(s: string)
    requires forall i :: 1 <= i < |s| && (LowerChar(s[i]) == 't' || LowerChar(s[i]) == '-') ==> !IsSpace(s[i - 1])
    ensures FirstFormat(s, Formats).None?
  {
    SeparatorNeedsSpace(s, Formats[0]);
    SeparatorNeedsSpace(s, Formats[1]);
    SeparatorNeedsSpace(s, Formats[2]);
    SeparatorNeedsSpace(s, Formats[3]);
  }

  lemma TightUnspaced(h1: string, m1: string, h2: string, m2: string, period: string)
    requires ValidClock(h1, m1) && ValidClock(h2, m2) && IsPeriod(period)
    ensures var s := TightText(h1, m1, h2, m2, period);
      forall i :: 1 <= i < |s| && (LowerChar(s[i]) == 't' || LowerChar(s[i]) == '-') ==> !IsSpace(s[i - 1])
  {
    var s := TightText(h1, m1, h2, m2, period);
    var head, tail := h1 + ":" + m1, h2 + ":" + m2 + " " + period;
    assert s == head + "-" + tail;
    ClockAvoids(h1, m1, 't');
    ClockAvoids(h1, m1, '-');
    ClockAvoids(h2, m2, 't');
    ClockAvoids(h2, m2, '-');
    PeriodAvoids(period, 't');
    PeriodAvoids(period, '-');
    assert tail == h2 + ":" + m2 + (" " + period);
    AvoidsConcat(h2 + ":" + m2, " " + period, 't');
    AvoidsConcat(h2 + ":" + m2, " " + period, '-');
    forall i | 1 <= i < |s| && (LowerChar(s[i]) == 't' || LowerChar(s[i]) == '-') ensures !IsSpace(s[i - 1]) {
      if i == |head| {
        assert s[i - 1] == m1[1];
      }
    }
  }

  /**
   * Patterns need whitespace around the separator: a descendant reading `H:MM-H:MM P` is
   * passed over, and the entry is timed as if it had no range-like descendant at all.
   */
  lemma TightRangeIgnored(h1: string, m1: string, h2: string, m2: string, period: string,
                          startLabel: Option<string>, endLabel: Option<string>, text: string)
    requires ValidClock(h1, m1) && ValidClock(h2, m2) && IsPeriod(period)
    ensures ParseTimeString([TightText(h1, m1, h2, m2, period)], startLabel, endLabel, text)
         == ParseTimeString([], startLabel, endLabel, text)
  {
    var s := TightText(h1, m1, h2, m2, period);
    PeriodChars(period);
    assert s[|s| - 1] == period[1] && IsDigit(s[0]);
    TrimUnchanged(s);
    TightUnspaced(h1, m1, h2, m2, period);
    UnspacedNoFormat(s);
  }

  lemma {:induction false} NoClockNoTokens(s: string, p: nat)
    requires !HasClockFrom(s, p)
    ensures ClockTokens(s, p) == []
    decreases |s| - p
  {
    if p < |s| {
      NoClockNoTokens(s, p + 1);
    }
  }

  lemma {:induction false} NoClockNoRange(descendants: seq<string>)
    requires forall i :: 0 <= i < |descendants| ==> !HasClockFrom(descendants[i], 0)
    ensures FirstRangeText(descendants).None?
  {
    if |descendants| > 0 {
      NoClockNoRange(descendants[1..]);
    }
  }

  /** With no clock anywhere and not both labels, the times are exactly `9:00 AM` to `10:30 AM`. */
  lemma DefaultWhenNoClock(descendants: seq<string>, startLabel: Option<string>, endLabel: Option<string>,
                           text: string)
    requires forall i :: 0 <= i < |descendants| ==> !HasClockFrom(descendants[i], 0)
    requires startLabel.None? || endLabel.None?
    requires !HasClockFrom(text, 0)
    ensures ParseTimeString(descendants, startLabel, endLabel, text) == DefaultTimes
  {
    NoClockNoRange(descendants);
    NoClockNoTokens(text, 0);
  }

  /**
   * A text with a single clock still gets the default times when no range is read and the
   * labels are not both there: the token fallback needs two clocks.
   */
  lemma SingleClockDefault(descendants: seq<string>, startLabel: Option<string>, endLabel: Option<string>,
                           text: string, q: nat)
    requires DescendantRange(descendants).None?
    requires startLabel.None? || endLabel.None?
    requires ClockAt(text, q).Some? && forall k :: 0 <= k < q ==> ClockAt(text, k).None?
    requires forall k :: ClockAt(text, q).value.end <= k < |text| ==> ClockAt(text, k).None?
    ensures |ClockTokens(text, 0)| == 1
    ensures ParseTimeString(descendants, startLabel, endLabel, text) == DefaultTimes
  {
    ClockTokensNext(text, 0, q);
    ClockTokensNone(text, ClockAt(text, q).value.end);
  }

  /** With no range found, labelled start and end elements win over any clock in the text. */
  lemma LabelsBeforeTokens(descendants: seq<string>, startText: string, endText: string, text: string)
    requires DescendantRange(descendants).None?
    ensures ParseTimeString(descendants, Some(startText), Some(endText), text) == Times(Trim(startText), Trim(endText))
  {
  }

  /**
   * The token fallback: the first two clocks of the text, the first with the first period
   * found (upper-cased) or `AM`, the second with the second period, else the first, else `AM`.
   */
  lemma TokenFallback(descendants: seq<string>, startLabel: Option<string>, endLabel: Option<string>, text: string)
    requires DescendantRange(descendants).None? && (startLabel.None? || endLabel.None?)
    requires |ClockTokens(text, 0)| >= 2
    ensures var clocks, periods := ClockTokens(text, 0), PeriodTokens(text, 0);
      ParseTimeString(descendants, startLabel, endLabel, text)
      == Times(clocks[0].Text() + " " + (if |periods| > 0 then periods[0] else "AM"),
               clocks[1].Text() + " " + (if |periods| > 1 then periods[1] else if |periods| > 0 then periods[0] else "AM"))
  {
    var periods := PeriodTokens(text, 0);
    if |periods| > 0 {
      assert periods[0] != "";
    }
    if |periods| > 1 {
      assert periods[1] != "";
    }
  }
}
