/**
 * `parseTimeString`: turns an entry's text into a start and an end time, trying in order
 * (1) the four clock-range formats on the first descendant that looks like a range,
 * (2) the texts of the labelled start/end elements, (3) the first two clock tokens of the
 * entry's text with the AM/PM tokens found anywhere in it, and (4) a fixed default.
 *
 * The regular expressions are read by hand-written scanners. Each pattern is deterministic
 * at a given start: `\d{1,2}` is followed by `:`, so when the second character is a digit
 * only the two-digit reading can go on, and otherwise only the one-digit one; `\s+` is
 * always followed by a character that is not whitespace (a digit, `t`, `-`, `a` or `p`),
 * so only the longest run can go on. `match` without the `g` flag reports the match that
 * starts leftmost, and the `g` flag lists the matches left to right without overlap.
 */
module TimeParser {
  import opened Wrappers
  import opened Text
  import opened Clock

  /** The captures of `(\d{1,2}):(\d{2})` and the position after the match. */
  datatype ClockMatch = ClockMatch(hour: string, minute: string, end: nat)

  predicate ValidClock(hour: string, minute: string) {
    1 <= |hour| <= 2 && IsDigits(hour) && |minute| == 2 && IsDigits(minute)
  }

  /** `(\d{1,2}):(\d{2})` at position `p`, the hour taking two digits when it can. */
  function ClockAt(s: string, p: nat): (r: Option<ClockMatch>)
    ensures r.Some? ==> var c := r.value;
      && ValidClock(c.hour, c.minute)
      && c.end == p + |c.hour| + 3 && c.end <= |s|
      && s[p..c.end] == c.hour + ":" + c.minute
  {
    if p + 5 <= |s| && IsDigit(s[p]) && IsDigit(s[p + 1]) && s[p + 2] == ':'
      && IsDigit(s[p + 3]) && IsDigit(s[p + 4])
    then
      ClockSlice(s, p, 2);
      Some(ClockMatch(s[p..p + 2], s[p + 3..p + 5], p + 5))
    else if p + 4 <= |s| && IsDigit(s[p]) && s[p + 1] == ':' && IsDigit(s[p + 2]) && IsDigit(s[p + 3])
    then
      ClockSlice(s, p, 1);
      Some(ClockMatch(s[p..p + 1], s[p + 2..p + 4], p + 4))
    else None
  }

  /** An hour of `h` digits, a colon and two digits at `p` split into the two captures. */
  lemma ClockSlice(s: string, p: nat, h: nat)
    requires 1 <= h <= 2 && p + h + 3 <= |s|
    requires forall i :: p <= i < p + h ==> IsDigit(s[i])
    requires s[p + h] == ':' && IsDigit(s[p + h + 1]) && IsDigit(s[p + h + 2])
    ensures ValidClock(s[p..p + h], s[p + h + 1..p + h + 3])
    ensures s[p..p + h + 3] == s[p..p + h] + ":" + s[p + h + 1..p + h + 3]
  {
    var hour, minute := s[p..p + h], s[p + h + 1..p + h + 3];
    forall i | 0 <= i < h ensures IsDigit(hour[i]) {
      assert hour[i] == s[p + i];
    }
    assert minute[0] == s[p + h + 1] && minute[1] == s[p + h + 2];
    assert s[p..p + h + 3] == hour + [s[p + h]] + minute;
  }

  /** The end of the run of whitespace that starts at `p`. */
  function SpaceRunEnd(s: string, p: nat): (e: nat)
    requires p <= |s|
    ensures p <= e <= |s|
    ensures forall i :: p <= i < e ==> IsSpace(s[i])
    ensures e == |s| || !IsSpace(s[e])
    decreases |s| - p
  {
    if p < |s| && IsSpace(s[p]) then SpaceRunEnd(s, p + 1) else p
  }

  /** `\s+` at `p`: the position after the run, which must hold one character or more. */
  function SpacesAt(s: string, p: nat): (r: Option<nat>)
    ensures r.Some? ==> p < r.value <= |s|
    ensures r.Some? ==> forall i :: p <= i < r.value ==> IsSpace(s[i])
    ensures r.Some? ==> r.value == |s| || !IsSpace(s[r.value])
  {
    if p < |s| && IsSpace(s[p]) then Some(SpaceRunEnd(s, p)) else None
  }

  /** The lower-case literal `w` at `p`, compared case-insensitively (flag `i`). */
  function WordAt(s: string, p: nat, w: string): (r: Option<nat>)
    ensures r.Some? ==> r.value == p + |w| <= |s| && ToLower(s[p..p + |w|]) == w
  {
    if p + |w| <= |s| && ToLower(s[p..p + |w|]) == w then Some(p + |w|) else None
  }

  /** `AM` or `PM` in any letter case. */
  predicate IsPeriod(t: string) {
    ToLower(t) == "am" || ToLower(t) == "pm"
  }

  /** `(AM|PM)` with flag `i` at `p`: the two characters as written. */
  function PeriodAt(s: string, p: nat): (r: Option<string>)
    ensures r.Some? ==> p + 2 <= |s| && r.value == s[p..p + 2] && IsPeriod(r.value)
  {
    if p + 2 <= |s| && IsPeriod(s[p..p + 2]) then Some(s[p..p + 2]) else None
  }

  /**
   * One of the four range formats: the separator (`to` or `-`) and whether each end carries
   * its own period (`H:MM P to H:MM P`) or one trailing period serves both (`H:MM to H:MM P`).
   */
  datatype Format = Format(separator: string, periodOnEachEnd: bool)

  /** The formats in the order they are tried. */
  const Formats: seq<Format> := [Format("to", false), Format("-", false), Format("to", true), Format("-", true)]

  /** The six captures of a range: start hour, minute, period; end hour, minute, period. */
  datatype Range = Range(
    startHour: string, startMinute: string, startPeriod: string,
    endHour: string, endMinute: string, endPeriod: string)

  predicate ValidRange(r: Range) {
    && ValidClock(r.startHour, r.startMinute) && IsPeriod(r.startPeriod)
    && ValidClock(r.endHour, r.endMinute) && IsPeriod(r.endPeriod)
  }

  /** A clock followed by its period: `(\d{1,2}):(\d{2})\s+(AM|PM)`. */
  datatype Timed = Timed(clock: ClockMatch, period: string, end: nat)

  function TimedAt(s: string, p: nat): (r: Option<Timed>)
    ensures r.Some? ==> ValidClock(r.value.clock.hour, r.value.clock.minute) && IsPeriod(r.value.period)
    ensures r.Some? ==> ClockAt(s, p) == Some(r.value.clock) && r.value.end <= |s|
  {
    var c :- ClockAt(s, p);
    var a :- SpacesAt(s, c.end);
    var period :- PeriodAt(s, a);
    Some(Timed(c, period, a + 2))
  }

  /** The separator with whitespace on both sides, `\s+SEP\s+`, at `p`: the position after it. */
  function SeparatorAt(s: string, p: nat, separator: string): (r: Option<nat>)
    ensures r.Some? ==> p < r.value
  {
    var a :- SpacesAt(s, p);
    var b :- WordAt(s, a, separator);
    SpacesAt(s, b)
  }

  /** `(\d{1,2}):(\d{2})\s+SEP\s+(\d{1,2}):(\d{2})\s+(AM|PM)` at `p`. */
  function SharedAt(s: string, p: nat, separator: string): (r: Option<Range>)
    ensures r.Some? ==> ClockAt(s, p).Some? && ValidRange(r.value)
    ensures r.Some? ==> (r.value.startHour == ClockAt(s, p).value.hour
      && r.value.startMinute == ClockAt(s, p).value.minute)
    ensures r.Some? ==> r.value.startPeriod == r.value.endPeriod
  {
    var c :- ClockAt(s, p);
    var q :- SeparatorAt(s, c.end, separator);
    var t :- TimedAt(s, q);
    Some(Range(c.hour, c.minute, t.period, t.clock.hour, t.clock.minute, t.period))
  }

  /** `(\d{1,2}):(\d{2})\s+(AM|PM)\s+SEP\s+(\d{1,2}):(\d{2})\s+(AM|PM)` at `p`. */
  function SplitAt(s: string, p: nat, separator: string): (r: Option<Range>)
    ensures r.Some? ==> ClockAt(s, p).Some? && ValidRange(r.value)
    ensures r.Some? ==> (r.value.startHour == ClockAt(s, p).value.hour
      && r.value.startMinute == ClockAt(s, p).value.minute)
  {
    var t1 :- TimedAt(s, p);
    var q :- SeparatorAt(s, t1.end, separator);
    var t2 :- TimedAt(s, q);
    Some(Range(t1.clock.hour, t1.clock.minute, t1.period, t2.clock.hour, t2.clock.minute, t2.period))
  }

  /**
   * The format `f` matched at `p`. The captures are the digits and letters as written in the
   * text; with one trailing period, that period is reported for both ends.
   */
  function MatchAt(s: string, p: nat, f: Format): (r: Option<Range>)
    ensures r.Some? ==> ValidRange(r.value) && ClockAt(s, p).Some?
    ensures r.Some? ==> (p + |r.value.startHour| + 3 <= |s|
      && s[p..p + |r.value.startHour| + 3] == r.value.startHour + ":" + r.value.startMinute)
    ensures r.Some? && !f.periodOnEachEnd ==> r.value.startPeriod == r.value.endPeriod
  {
    if f.periodOnEachEnd then SplitAt(s, p, f.separator) else SharedAt(s, p, f.separator)
  }

  /** Where a format first matched, and what it captured. */
  datatype Found = Found(at: nat, range: Range)

  /** `text.match(pattern)`: the match that starts leftmost at or after `p`. */
  function FindFrom(s: string, f: Format, p: nat): (r: Option<Found>)
    ensures r.Some? ==> p <= r.value.at && MatchAt(s, r.value.at, f) == Some(r.value.range)
    ensures r.Some? ==> forall q :: p <= q < r.value.at ==> MatchAt(s, q, f).None?
    ensures r.None? ==> forall q :: p <= q ==> MatchAt(s, q, f).None?
    decreases |s| - p
  {
    if p > |s| then NoMatchPastEnd(s, f); None
    else
      match MatchAt(s, p, f)
      case Some(range) => Some(Found(p, range))
      case None => FindFrom(s, f, p + 1)
  }

  /** No format matches past the end of the text. */
  lemma NoMatchPastEnd(s: string, f: Format)
    ensures forall q :: q > |s| ==> MatchAt(s, q, f).None?
  {
    forall q | q > |s| ensures MatchAt(s, q, f).None? {
      assert ClockAt(s, q).None?;
    }
  }

  /** Which format matched first (its index in the list tried), and where it matched. */
  datatype Hit = Hit(format: nat, found: Found)

  function FirstFormat(s: string, formats: seq<Format>): (r: Option<Hit>)
    ensures r.Some? ==> r.value.format < |formats|
    ensures r.Some? ==> FindFrom(s, formats[r.value.format], 0) == Some(r.value.found)
    ensures r.Some? ==> forall j :: 0 <= j < r.value.format ==> FindFrom(s, formats[j], 0).None?
    ensures r.None? ==> forall j :: 0 <= j < |formats| ==> FindFrom(s, formats[j], 0).None?
  {
    FirstHit(formats, f => FindFrom(s, f, 0), 0)
  }

  /** The first of `formats[k..]` on which `search` finds something, and what it finds. */
  function FirstHit(formats: seq<Format>, search: Format -> Option<Found>, k: nat): (r: Option<Hit>)
    requires k <= |formats|
    ensures r.Some? ==> k <= r.value.format < |formats|
    ensures r.Some? ==> search(formats[r.value.format]) == Some(r.value.found)
    ensures r.Some? ==> forall j :: k <= j < r.value.format ==> search(formats[j]).None?
    ensures r.None? ==> forall j :: k <= j < |formats| ==> search(formats[j]).None?
    decreases |formats| - k
  {
    if k == |formats| then None
    else
      match search(formats[k])
      case Some(found) => Some(Hit(k, found))
      case None => FirstHit(formats, search, k + 1)
  }

  /** `/\d{1,2}:\d{2}/` matches somewhere at or after `p`. */
  predicate HasClockFrom(s: string, p: nat)
    decreases |s| - p
  {
    p < |s| && (ClockAt(s, p).Some? || HasClockFrom(s, p + 1))
  }

  /** The descendant filter: a clock and a `to` or `-` (both compared case-sensitively). */
  predicate LooksLikeRange(text: string) {
    HasClockFrom(text, 0) && (Contains(text, "to") || Contains(text, "-"))
  }

  /** The text of the first descendant, in document order, that passes the filter. */
  function FirstRangeText(descendants: seq<string>): (r: Option<string>)
    ensures r.Some? ==> r.value in descendants && LooksLikeRange(r.value)
    ensures r.Some? ==> exists i :: (0 <= i < |descendants| && descendants[i] == r.value
      && forall j :: 0 <= j < i ==> !LooksLikeRange(descendants[j]))
    ensures r.None? <==> forall d :: d in descendants ==> !LooksLikeRange(d)
  {
    if |descendants| == 0 then None
    else if LooksLikeRange(descendants[0]) then Some(descendants[0])
    else
      var r := FirstRangeText(descendants[1..]);
      assert descendants == [descendants[0]] + descendants[1..];
      if r.Some? then RangeWitnessShift(descendants, r.value); r else r
  }

  /** A first range-like text of the tail, behind a first element that is not one, is first overall. */
  lemma RangeWitnessShift(descendants: seq<string>, t: string)
    requires |descendants| > 0 && !LooksLikeRange(descendants[0])
    requires exists i :: (0 <= i < |descendants| - 1 && descendants[1..][i] == t
      && forall j :: 0 <= j < i ==> !LooksLikeRange(descendants[1..][j]))
    ensures exists i :: (0 <= i < |descendants| && descendants[i] == t
      && forall j :: 0 <= j < i ==> !LooksLikeRange(descendants[j]))
  {
    var i :| 0 <= i < |descendants| - 1 && descendants[1..][i] == t
      && forall j :: 0 <= j < i ==> !LooksLikeRange(descendants[1..][j]);
    forall j | 0 <= j < i + 1 ensures !LooksLikeRange(descendants[j]) {
      if j > 0 {
        assert descendants[j] == descendants[1..][j - 1];
      }
    }
    assert descendants[i + 1] == t;
  }

  /** Step 1: the captures of the first matching format, on the trimmed descendant text. */
  function DescendantRange(descendants: seq<string>): (r: Option<Range>)
    ensures r.Some? ==> ValidRange(r.value)
  {
    var text :- FirstRangeText(descendants);
    var hit :- FirstFormat(Trim(text), Formats);
    Some(hit.found.range)
  }

  /** A clock token `H:MM`, as its hour and minute digits. */
  datatype Token = Token(hour: string, minute: string) {
    function Text(): string { hour + ":" + minute }
  }

  /** `text.match(/(\d{1,2}):(\d{2})/g)`: the clock tokens from `p` on, left to right. */
  function ClockTokens(s: string, p: nat): (r: seq<Token>)
    ensures forall i :: 0 <= i < |r| ==> ValidClock(r[i].hour, r[i].minute)
    decreases |s| - p
  {
    if p >= |s| then []
    else
      match ClockAt(s, p)
      case Some(c) => [Token(c.hour, c.minute)] + ClockTokens(s, c.end)
      case None => ClockTokens(s, p + 1)
  }

  /** `text.match(/(AM|PM)/gi)` mapped to upper case: every `am`/`pm`, also inside words. */
  function PeriodTokens(s: string, p: nat): (r: seq<string>)
    ensures forall i :: 0 <= i < |r| ==> r[i] == "AM" || r[i] == "PM"
    decreases |s| - p
  {
    if p >= |s| then []
    else
      match PeriodAt(s, p)
      case Some(t) => UpperPeriod(t); [ToUpper(t)] + PeriodTokens(s, p + 2)
      case None => PeriodTokens(s, p + 1)
  }

  /**
   * The clock tokens from `p` on are the leftmost clock at or after `p`, then the clock tokens
   * from the end of that match: `g` resumes the search where the last match ended.
   */
  lemma {:induction false} ClockTokensNext(s: string, p: nat, q: nat)
    requires p <= q && ClockAt(s, q).Some?
    requires forall k :: p <= k < q ==> ClockAt(s, k).None?
    ensures var c := ClockAt(s, q).value;
      ClockTokens(s, p) == [Token(c.hour, c.minute)] + ClockTokens(s, c.end)
    decreases q - p
  {
    if p < q {
      ClockTokensNext(s, p + 1, q);
    }
  }

  /** Without a clock at or after `p`, there are no clock tokens from `p` on. */
  lemma {:induction false} ClockTokensNone(s: string, p: nat)
    requires forall k :: p <= k < |s| ==> ClockAt(s, k).None?
    ensures ClockTokens(s, p) == []
    decreases |s| - p
  {
    if p < |s| {
      ClockTokensNone(s, p + 1);
    }
  }

  /**
   * The first two clock tokens are the leftmost clock and the leftmost clock after the end of
   * that match, whatever follows them.
   */
  lemma FirstTwoClocks(s: string, q1: nat, q2: nat)
    requires ClockAt(s, q1).Some? && forall k :: 0 <= k < q1 ==> ClockAt(s, k).None?
    requires ClockAt(s, q1).value.end <= q2 && ClockAt(s, q2).Some?
    requires forall k :: ClockAt(s, q1).value.end <= k < q2 ==> ClockAt(s, k).None?
    ensures var c1, c2, r := ClockAt(s, q1).value, ClockAt(s, q2).value, ClockTokens(s, 0);
      |r| >= 2 && r[0] == Token(c1.hour, c1.minute) && r[1] == Token(c2.hour, c2.minute)
  {
    ClockTokensNext(s, 0, q1);
    ClockTokensNext(s, ClockAt(s, q1).value.end, q2);
  }

  /**
   * The period tokens from `p` on are the leftmost `am`/`pm` at or after `p`, upper-cased, then
   * the period tokens from just after it.
   */
  lemma {:induction false} PeriodTokensNext(s: string, p: nat, q: nat)
    requires p <= q && PeriodAt(s, q).Some?
    requires forall k :: p <= k < q ==> PeriodAt(s, k).None?
    ensures PeriodTokens(s, p) == [ToUpper(PeriodAt(s, q).value)] + PeriodTokens(s, q + 2)
    decreases q - p
  {
    if p < q {
      PeriodTokensNext(s, p + 1, q);
    }
  }

  /** Without `am` or `pm` at or after `p`, there are no period tokens from `p` on. */
  lemma {:induction false} PeriodTokensNone(s: string, p: nat)
    requires forall k :: p <= k < |s| ==> PeriodAt(s, k).None?
    ensures PeriodTokens(s, p) == []
    decreases |s| - p
  {
    if p < |s| {
      PeriodTokensNone(s, p + 1);
    }
  }

  lemma UpperPeriod(t: string)
    requires IsPeriod(t)
    ensures ToUpper(t) == "AM" || ToUpper(t) == "PM"
  {
    assert |t| == 2;
    assert LowerChar(t[0]) == 'a' || LowerChar(t[0]) == 'p';
    assert LowerChar(t[1]) == 'm';
  }

  /** `xs[i] || fallback` for a list of strings: a missing or empty element gives the fallback. */
  function ElementOr(xs: seq<string>, i: nat, fallback: string): string {
    if i < |xs| && xs[i] != "" then xs[i] else fallback
  }

  datatype Times = Times(startTime: string, endTime: string)

  /** The fallback `9:00 AM` to `10:30 AM`. */
  const DefaultTimes: Times := Times(ClockText("9", "00", "AM"), ClockText("10", "30", "AM"))

  /** The times rendered from a format's captures: each is `H:MM P`. */
  function RangeTimes(r: Range): (t: Times)
    requires ValidRange(r)
    ensures ClockShaped(t.startTime) && ClockShaped(t.endTime)
  {
    PeriodHasNoSpace(r.startPeriod);
    PeriodHasNoSpace(r.endPeriod);
    ClockTextFields(r.startHour, r.startMinute, r.startPeriod);
    ClockTextFields(r.endHour, r.endMinute, r.endPeriod);
    Times(ClockText(r.startHour, r.startMinute, r.startPeriod), ClockText(r.endHour, r.endMinute, r.endPeriod))
  }

  /** Step 3: the first two clock tokens of the entry text, with the periods found in it. */
  function TokenTimes(text: string): (r: Option<Times>)
    ensures r.Some? ==> ClockShaped(r.value.startTime) && ClockShaped(r.value.endTime)
  {
    var clocks := ClockTokens(text, 0);
    if |clocks| < 2 then None
    else
      var found := PeriodTokens(text, 0);
      var periods := if |found| > 0 then found else ["AM", "AM"];
      var p0 := ElementOr(periods, 0, "AM");
      var p1 := ElementOr(periods, 1, p0);
      TokenShaped(clocks[0], p0);
      TokenShaped(clocks[1], p1);
      Some(Times(clocks[0].Text() + " " + p0, clocks[1].Text() + " " + p1))
  }

  /** A clock token followed by a space and `AM` or `PM` is a clock the sort can read. */
  lemma TokenShaped(token: Token, period: string)
    requires ValidClock(token.hour, token.minute) && (period == "AM" || period == "PM")
    ensures ClockShaped(token.Text() + " " + period)
  {
    assert NoSpace(period);
    ClockTextFields(token.hour, token.minute, period);
    assert token.Text() + " " + period == ClockText(token.hour, token.minute, period);
  }

  /**
   * `parseTimeString(entry)`, with the entry's DOM given as the texts of its descendants in
   * document order, the texts of the labelled start and end elements if present, and the
   * entry's own text. The start time is a clock the sort can read, unless it is the
   * labelled start element's text.
   */
  function ParseTimeString(descendants: seq<string>, startLabel: Option<string>, endLabel: Option<string>,
                           text: string): (t: Times)
    ensures || ClockShaped(t.startTime)
            || (startLabel.Some? && endLabel.Some? && t == Times(Trim(startLabel.value), Trim(endLabel.value)))
  {
    match DescendantRange(descendants)
    case Some(r) => RangeTimes(r)
    case None =>
      if startLabel.Some? && endLabel.Some? then Times(Trim(startLabel.value), Trim(endLabel.value))
      else
        match TokenTimes(text)
        case Some(t) => t
        case None => DefaultShaped(); DefaultTimes
  }

  lemma DefaultShaped()
    ensures ClockShaped(DefaultTimes.startTime) && ClockShaped(DefaultTimes.endTime)
  {
    assert ValidClock("9", "00");
    MorningShaped("9", "00");
    assert ValidClock("10", "30");
    MorningShaped("10", "30");
  }

  lemma MorningShaped(h: string, m: string)
    requires ValidClock(h, m)
    ensures ClockShaped(ClockText(h, m, "AM"))
  {
    assert NoSpace("AM");
    ClockTextFields(h, m, "AM");
  }

  lemma PeriodHasNoSpace(t: string)
    requires IsPeriod(t)
    ensures NoSpace(t)
  {
    assert |t| == 2;
    assert LowerChar(t[0]) != ' ' && LowerChar(t[1]) != ' ';
  }
}
