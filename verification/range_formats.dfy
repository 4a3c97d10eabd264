/**
 * What `parseTimeString` makes of the texts its four range formats are written for:
 * `H:MM SEP H:MM P` (one trailing period) and `H:MM P SEP H:MM P` (a period on each end),
 * with `SEP` one of `to` and `-` and runs of whitespace of any length between the pieces.
 * The digits and the periods come back as written, the formats are told apart as the
 * source's order of trial intends, and the quirks of the patterns (one period copied onto
 * both ends, a lower-case period kept, whitespace required around the separator) are stated
 * as lemmas.
 */
module RangeFormats {
  import opened Wrappers
  import opened Text
  import opened Clock
  import opened TimeParser

  predicate IsSeparator(sep: string) {
    sep == "to" || sep == "-"
  }

  /** A run of one whitespace character or more, which `\s+` consumes whole. */
  predicate Blank(w: string) {
    |w| > 0 && forall i :: 0 <= i < |w| ==> IsSpace(w[i])
  }

  /**
   * The whitespace runs of a layout: between the start clock and its own period (used only
   * when each end has a period), before and after the separator, and between the end clock
   * and its period.
   */
  datatype Gaps = Gaps(startPeriod: string, beforeSep: string, afterSep: string, endPeriod: string)

  /** The runs a one-period layout uses are whitespace. */
  predicate SharedGaps(g: Gaps) {
    Blank(g.beforeSep) && Blank(g.afterSep) && Blank(g.endPeriod)
  }

  /** The runs a two-period layout uses are whitespace. */
  predicate SplitGaps(g: Gaps) {
    SharedGaps(g) && Blank(g.startPeriod)
  }

  /** `H:MM SEP H:MM P`: the start clock, the separator in its whitespace, the timed end clock. */
  function SharedText(h1: string, m1: string, sep: string, h2: string, m2: string, period: string, g: Gaps): string {
    h1 + ":" + m1 + (g.beforeSep + sep + g.afterSep) + (h2 + ":" + m2 + g.endPeriod + period)
  }

  /** `H:MM P SEP H:MM P`: the timed start clock, the separator in its whitespace, the timed end clock. */
  function SplitText(h1: string, m1: string, p1: string, sep: string, h2: string, m2: string, p2: string,
                     g: Gaps): string {
    h1 + ":" + m1 + g.startPeriod + p1 + (g.beforeSep + sep + g.afterSep) + (h2 + ":" + m2 + g.endPeriod + p2)
  }

  // ---- the scanners on text laid out as expected ----

  /** Three pieces written one after the other from `p` each sit where the previous one ends. */
  lemma Split3(s: string, p: nat, a: string, b: string, c: string, e1: nat, e2: nat, e3: nat)
    requires e1 == p + |a| && e2 == e1 + |b| && e3 == e2 + |c| && e3 <= |s| && s[p..e3] == a + b + c
    ensures s[p..e1] == a && s[e1..e2] == b && s[e2..e3] == c
  {
    forall i | 0 <= i < |a| ensures s[p..e1][i] == a[i] {
      assert s[p..e3][i] == (a + b + c)[i];
    }
    forall i | 0 <= i < |b| ensures s[e1..e2][i] == b[i] {
      assert s[p..e3][|a| + i] == (a + b + c)[|a| + i];
    }
    forall i | 0 <= i < |c| ensures s[e2..e3][i] == c[i] {
      assert s[p..e3][|a| + |b| + i] == (a + b + c)[|a| + |b| + i];
    }
  }

  lemma ClockAtText(s: string, p: nat, h: string, m: string)
    requires ValidClock(h, m) && p + |h| + 3 <= |s| && s[p..p + |h| + 3] == h + ":" + m
    ensures ClockAt(s, p) == Some(ClockMatch(h, m, p + |h| + 3))
  {
    var w := h + ":" + m;
    forall i | 0 <= i < |w| ensures s[p + i] == w[i] {
      assert s[p..p + |h| + 3][i] == w[i];
    }
    forall i | 0 <= i < |h| ensures s[p..p + |h|][i] == h[i] {
      assert s[p + i] == w[i];
    }
    forall i | 0 <= i < 2 ensures s[p + |h| + 1..p + |h| + 3][i] == m[i] {
      assert s[p + |h| + 1 + i] == w[|h| + 1 + i];
    }
    assert s[p + |h|] == w[|h|] == ':';
    if |h| == 1 {
      assert p + |h| == p + 1;
      assert s[p..p + 1] == h && s[p + 2..p + 4] == m;
      assert IsDigit(s[p]) && s[p + 1] == ':' && IsDigit(s[p + 2]) && IsDigit(s[p + 3]);
      assert s[p + 2] != ':';
      assert ClockAt(s, p) == Some(ClockMatch(s[p..p + 1], s[p + 2..p + 4], p + 4));
    } else {
      assert p + |h| == p + 2;
      assert s[p..p + 2] == h && s[p + 3..p + 5] == m;
      assert IsDigit(s[p]) && IsDigit(s[p + 1]) && s[p + 2] == ':' && IsDigit(s[p + 3]) && IsDigit(s[p + 4]);
      assert ClockAt(s, p) == Some(ClockMatch(s[p..p + 2], s[p + 3..p + 5], p + 5));
    }
  }

  lemma {:induction false} RunEnd(s: string, p: nat, e: nat)
    requires p <= e <= |s| && forall i :: p <= i < e ==> IsSpace(s[i])
    requires e == |s| || !IsSpace(s[e])
    ensures SpaceRunEnd(s, p) == e
    decreases e - p
  {
    if p < e {
      RunEnd(s, p + 1, e);
    }
  }

  /** `\s+` at `p` consumes a whitespace run written there, up to the character after it. */
  lemma SpaceRunAt(s: string, p: nat, w: string)
    requires Blank(w) && p + |w| <= |s| && s[p..p + |w|] == w
    requires p + |w| == |s| || !IsSpace(s[p + |w|])
    ensures SpacesAt(s, p) == Some(p + |w|)
  {
    forall i | p <= i < p + |w| ensures IsSpace(s[i]) {
      assert s[i] == s[p..p + |w|][i - p];
    }
    RunEnd(s, p, p + |w|);
  }

  lemma WordAtText(s: string, p: nat, w: string)
    requires p + |w| <= |s| && s[p..p + |w|] == w && ToLower(w) == w
    ensures WordAt(s, p, w) == Some(p + |w|)
  {
  }

  lemma PeriodAtText(s: string, p: nat, t: string)
    requires p + 2 <= |s| && s[p..p + 2] == t && IsPeriod(t)
    ensures PeriodAt(s, p) == Some(t)
  {
  }

  lemma SeparatorLower(sep: string)
    requires IsSeparator(sep)
    ensures ToLower(sep) == sep && |sep| > 0 && !IsSpace(sep[0])
  {
  }

  lemma PeriodChars(t: string)
    requires IsPeriod(t)
    ensures |t| == 2 && (LowerChar(t[0]) == 'a' || LowerChar(t[0]) == 'p') && LowerChar(t[1]) == 'm'
    ensures !IsSpace(t[0]) && !IsSpace(t[1]) && !IsDigit(t[0]) && !IsDigit(t[1])
  {
    assert ToLower(t)[0] == LowerChar(t[0]) && ToLower(t)[1] == LowerChar(t[1]);
  }

  /** A clock, a whitespace run and a period at `p` are read as one timed clock. */
  lemma TimedText(s: string, p: nat, h: string, m: string, w: string, t: string, e: nat)
    requires ValidClock(h, m) && Blank(w) && IsPeriod(t)
    requires e == p + |h| + 3 + |w| + 2 && e <= |s| && s[p..e] == h + ":" + m + w + t
    ensures TimedAt(s, p) == Some(Timed(ClockMatch(h, m, p + |h| + 3), t, e))
  {
    var c := p + |h| + 3;
    Split3(s, p, h + ":" + m, w, t, c, c + |w|, e);
    TimedPieces(s, p, h, m, w, t);
  }

  lemma TimedPieces(s: string, p: nat, h: string, m: string, w: string, t: string)
    requires ValidClock(h, m) && Blank(w) && IsPeriod(t)
    requires var e := p + |h| + 3; e + |w| + 2 <= |s|
    requires var e := p + |h| + 3; s[p..e] == h + ":" + m && s[e..e + |w|] == w && s[e + |w|..e + |w| + 2] == t
    ensures TimedAt(s, p) == Some(Timed(ClockMatch(h, m, p + |h| + 3), t, p + |h| + 3 + |w| + 2))
  {
    var e := p + |h| + 3;
    ClockAtText(s, p, h, m);
    PeriodChars(t);
    assert s[e + |w|] == t[0];
    SpaceRunAt(s, e, w);
    PeriodAtText(s, e + |w|, t);
    TimedCompose(s, p, ClockMatch(h, m, e), e + |w|, t);
  }

  /** `TimedAt` reads a clock, a whitespace run and a period, one after the other. */
  lemma TimedCompose(s: string, p: nat, c: ClockMatch, a: nat, t: string)
    requires ClockAt(s, p) == Some(c) && SpacesAt(s, c.end) == Some(a) && PeriodAt(s, a) == Some(t)
    ensures TimedAt(s, p) == Some(Timed(c, t, a + 2))
  {
  }

  /** A separator with whitespace runs around it, followed by a non-space, is read as one. */
  lemma SeparatorText(s: string, p: nat, w1: string, sep: string, w2: string, q: nat)
    requires IsSeparator(sep) && Blank(w1) && Blank(w2)
    requires var x := w1 + sep + w2; q == p + |x| < |s| && s[p..q] == x && !IsSpace(s[q])
    ensures SeparatorAt(s, p, sep) == Some(q)
  {
    var a := p + |w1|;
    Split3(s, p, w1, sep, w2, a, a + |sep|, q);
    SeparatorPieces(s, p, w1, sep, w2, q);
  }

  lemma SeparatorPieces(s: string, p: nat, w1: string, sep: string, w2: string, q: nat)
    requires IsSeparator(sep) && Blank(w1) && Blank(w2)
    requires var a := p + |w1|; var b := a + |sep|; q == b + |w2| < |s|
    requires var a := p + |w1|; var b := a + |sep|;
      s[p..a] == w1 && s[a..b] == sep && s[b..q] == w2 && !IsSpace(s[q])
    ensures SeparatorAt(s, p, sep) == Some(q)
  {
    var a := p + |w1|;
    var b := a + |sep|;
    SeparatorLower(sep);
    assert s[a] == sep[0];
    SpaceRunAt(s, p, w1);
    WordAtText(s, a, sep);
    SpaceRunAt(s, b, w2);
    SeparatorCompose(s, p, sep, a, b, q);
  }

  /** `SeparatorAt` reads a whitespace run, the separator and a whitespace run, one after the other. */
  lemma SeparatorCompose(s: string, p: nat, sep: string, a: nat, b: nat, q: nat)
    requires SpacesAt(s, p) == Some(a) && WordAt(s, a, sep) == Some(b) && SpacesAt(s, b) == Some(q)
    ensures SeparatorAt(s, p, sep) == Some(q)
  {
  }

  /** The shared format reads a clock, a separator and a timed clock, one after the other. */
  lemma SharedCompose(s: string, p: nat, sep: string, c: ClockMatch, q: nat, t: Timed)
    requires ClockAt(s, p) == Some(c) && SeparatorAt(s, c.end, sep) == Some(q) && TimedAt(s, q) == Some(t)
    ensures MatchAt(s, p, Format(sep, false))
      == Some(Range(c.hour, c.minute, t.period, t.clock.hour, t.clock.minute, t.period))
  {
  }

  /** The split format reads a timed clock, a separator and a timed clock, one after the other. */
  lemma SplitCompose(s: string, p: nat, sep: string, t1: Timed, q: nat, t2: Timed)
    requires TimedAt(s, p) == Some(t1) && SeparatorAt(s, t1.end, sep) == Some(q) && TimedAt(s, q) == Some(t2)
    ensures MatchAt(s, p, Format(sep, true))
      == Some(Range(t1.clock.hour, t1.clock.minute, t1.period, t2.clock.hour, t2.clock.minute, t2.period))
  {
  }

  /** A one-period layout written at `p` of a longer text is matched there, whatever follows it. */
  lemma SharedParts(s: string, p: nat, h1: string, m1: string, sep: string, h2: string, m2: string,
                    period: string, g: Gaps)
    requires ValidClock(h1, m1) && ValidClock(h2, m2) && IsPeriod(period) && IsSeparator(sep) && SharedGaps(g)
    requires var x := SharedText(h1, m1, sep, h2, m2, period, g); p + |x| <= |s| && s[p..p + |x|] == x
    ensures MatchAt(s, p, Format(sep, false)) == Some(Range(h1, m1, period, h2, m2, period))
  {
    var x := SharedText(h1, m1, sep, h2, m2, period, g);
    var mid, tail := g.beforeSep + sep + g.afterSep, h2 + ":" + m2 + g.endPeriod + period;
    var e := p + |h1| + 3;
    var q := e + |mid|;
    assert p + |x| == q + |tail|;
    Split3(s, p, h1 + ":" + m1, mid, tail, e, q, q + |tail|);
    SharedPieces(s, p, h1, m1, sep, h2, m2, period, g, e, q);
  }

  /** The three pieces of a one-period layout, each where the previous one ends, match as a whole. */
  lemma SharedPieces(s: string, p: nat, h1: string, m1: string, sep: string, h2: string, m2: string,
                     period: string, g: Gaps, e: nat, q: nat)
    requires ValidClock(h1, m1) && ValidClock(h2, m2) && IsPeriod(period) && IsSeparator(sep) && SharedGaps(g)
    requires p <= e <= q <= |s| && e == p + |h1| + 3 && s[p..e] == h1 + ":" + m1
    requires q == e + |g.beforeSep + sep + g.afterSep| && s[e..q] == g.beforeSep + sep + g.afterSep
    requires var x := h2 + ":" + m2 + g.endPeriod + period; q + |x| <= |s| && s[q..q + |x|] == x
    ensures MatchAt(s, p, Format(sep, false)) == Some(Range(h1, m1, period, h2, m2, period))
  {
    assert s[q] == (h2 + ":" + m2 + g.endPeriod + period)[0] == h2[0];
    ClockAtText(s, p, h1, m1);
    SeparatorText(s, e, g.beforeSep, sep, g.afterSep, q);
    SharedEnd(s, p, ClockMatch(h1, m1, e), sep, q, h2, m2, g.endPeriod, period);
  }

  /** Once a clock and a separator are read, a timed clock after them completes the one-period format. */
  lemma SharedEnd(s: string, p: nat, c: ClockMatch, sep: string, q: nat, h: string, m: string, w: string, t: string)
    requires ClockAt(s, p) == Some(c) && SeparatorAt(s, c.end, sep) == Some(q)
    requires ValidClock(h, m) && Blank(w) && IsPeriod(t)
    requires var x := h + ":" + m + w + t; q + |x| <= |s| && s[q..q + |x|] == x
    ensures MatchAt(s, p, Format(sep, false)) == Some(Range(c.hour, c.minute, t, h, m, t))
  {
    var e := q + |h| + 3 + |w| + 2;
    assert q + |h + ":" + m + w + t| == e;
    TimedText(s, q, h, m, w, t, e);
    SharedCompose(s, p, sep, c, q, Timed(ClockMatch(h, m, q + |h| + 3), t, e));
  }

  /** A two-period layout written at `p` of a longer text is matched there, whatever follows it. */
  lemma SplitParts(s: string, p: nat, h1: string, m1: string, p1: string, sep: string, h2: string, m2: string,
                   p2: string, g: Gaps)
    requires ValidClock(h1, m1) && ValidClock(h2, m2) && IsPeriod(p1) && IsPeriod(p2) && IsSeparator(sep)
    requires SplitGaps(g)
    requires var x := SplitText(h1, m1, p1, sep, h2, m2, p2, g); p + |x| <= |s| && s[p..p + |x|] == x
    ensures MatchAt(s, p, Format(sep, true)) == Some(Range(h1, m1, p1, h2, m2, p2))
  {
    var x := SplitText(h1, m1, p1, sep, h2, m2, p2, g);
    var head, mid, tail := h1 + ":" + m1 + g.startPeriod + p1, g.beforeSep + sep + g.afterSep,
      h2 + ":" + m2 + g.endPeriod + p2;
    var e := p + |h1| + 3 + |g.startPeriod| + 2;
    var q := e + |mid|;
    assert p + |x| == q + |tail|;
    Split3(s, p, head, mid, tail, e, q, q + |tail|);
    SplitPieces(s, p, h1, m1, p1, sep, h2, m2, p2, g, e, q);
  }

  /** The three pieces of a two-period layout, each where the previous one ends, match as a whole. */
  lemma SplitPieces(s: string, p: nat, h1: string, m1: string, p1: string, sep: string, h2: string, m2: string,
                    p2: string, g: Gaps, e: nat, q: nat)
    requires ValidClock(h1, m1) && ValidClock(h2, m2) && IsPeriod(p1) && IsPeriod(p2) && IsSeparator(sep)
    requires SplitGaps(g)
    requires p <= e <= q <= |s|
    requires var x := h1 + ":" + m1 + g.startPeriod + p1; e == p + |x| && s[p..e] == x
    requires q == e + |g.beforeSep + sep + g.afterSep| && s[e..q] == g.beforeSep + sep + g.afterSep
    requires var x := h2 + ":" + m2 + g.endPeriod + p2; q + |x| <= |s| && s[q..q + |x|] == x
    ensures MatchAt(s, p, Format(sep, true)) == Some(Range(h1, m1, p1, h2, m2, p2))
  {
    assert s[q] == (h2 + ":" + m2 + g.endPeriod + p2)[0] == h2[0];
    assert e == p + |h1| + 3 + |g.startPeriod| + 2;
    TimedText(s, p, h1, m1, g.startPeriod, p1, e);
    SeparatorText(s, e, g.beforeSep, sep, g.afterSep, q);
    SplitEnd(s, p, Timed(ClockMatch(h1, m1, p + |h1| + 3), p1, e), sep, q, h2, m2, g.endPeriod, p2);
  }

  /** Once a timed clock and a separator are read, a timed clock after them completes the two-period format. */
  lemma SplitEnd(s: string, p: nat, t1: Timed, sep: string, q: nat, h: string, m: string, w: string, t: string)
    requires TimedAt(s, p) == Some(t1) && SeparatorAt(s, t1.end, sep) == Some(q)
    requires ValidClock(h, m) && Blank(w) && IsPeriod(t)
    requires var x := h + ":" + m + w + t; q + |x| <= |s| && s[q..q + |x|] == x
    ensures MatchAt(s, p, Format(sep, true)) == Some(Range(t1.clock.hour, t1.clock.minute, t1.period, h, m, t))
  {
    var e := q + |h| + 3 + |w| + 2;
    assert q + |h + ":" + m + w + t| == e;
    TimedText(s, q, h, m, w, t, e);
    SplitCompose(s, p, sep, t1, q, Timed(ClockMatch(h, m, q + |h| + 3), t, e));
  }

  /** Each format reads its own layout back: the digits and the period(s) as written. */
  lemma SharedRoundTrip(h1: string, m1: string, sep: string, h2: string, m2: string, period: string, g: Gaps)
    requires ValidClock(h1, m1) && ValidClock(h2, m2) && IsPeriod(period) && IsSeparator(sep) && SharedGaps(g)
    ensures MatchAt(SharedText(h1, m1, sep, h2, m2, period, g), 0, Format(sep, false))
         == Some(Range(h1, m1, period, h2, m2, period))
  {
    var s := SharedText(h1, m1, sep, h2, m2, period, g);
    assert s[0..|s|] == s;
    SharedParts(s, 0, h1, m1, sep, h2, m2, period, g);
  }

  lemma SplitRoundTrip(h1: string, m1: string, p1: string, sep: string, h2: string, m2: string, p2: string, g: Gaps)
    requires ValidClock(h1, m1) && ValidClock(h2, m2) && IsPeriod(p1) && IsPeriod(p2) && IsSeparator(sep)
    requires SplitGaps(g)
    ensures MatchAt(SplitText(h1, m1, p1, sep, h2, m2, p2, g), 0, Format(sep, true))
         == Some(Range(h1, m1, p1, h2, m2, p2))
  {
    var s := SplitText(h1, m1, p1, sep, h2, m2, p2, g);
    assert s[0..|s|] == s;
    SplitParts(s, 0, h1, m1, p1, sep, h2, m2, p2, g);
  }

  // ---- where a separator can be matched ----

  lemma SeparatorPosition(s: string, p: nat, sep: string) returns (b: nat)
    requires SeparatorAt(s, p, sep).Some? && |sep| > 0
    ensures p < b < |s| && LowerChar(s[b]) == sep[0]
    ensures forall i :: p <= i < b ==> IsSpace(s[i])
  {
    b := SpacesAt(s, p).value;
    assert WordAt(s, b, sep).Some?;
    assert ToLower(s[b..b + |sep|])[0] == LowerChar(s[b]);
  }

  /** Wherever a format matches, its separator starts at a character `b` with whitespace right before it. */
  lemma MatchSeparator(s: string, p: nat, f: Format) returns (b: nat)
    requires MatchAt(s, p, f).Some? && |f.separator| > 0
    ensures 1 <= b < |s| && LowerChar(s[b]) == f.separator[0] && IsSpace(s[b - 1])
  {
    if f.periodOnEachEnd {
      var t := TimedAt(s, p).value;
      b := SeparatorPosition(s, t.end, f.separator);
    } else {
      var c := ClockAt(s, p).value;
      b := SeparatorPosition(s, c.end, f.separator);
    }
  }

  /**
   * Where a one-period format matches, the whitespace run before its separator starts right
   * after a digit: the start clock's last minute digit.
   */
  lemma SharedRun(s: string, p: nat, sep: string) returns (j: nat, b: nat)
    requires SharedAt(s, p, sep).Some? && |sep| > 0
    ensures j + 1 < b < |s| && IsDigit(s[j]) && LowerChar(s[b]) == sep[0]
    ensures forall k :: j < k < b ==> IsSpace(s[k])
  {
    var c := ClockAt(s, p).value;
    b := SeparatorPosition(s, c.end, sep);
    j := c.end - 1;
    assert s[j] == s[p..c.end][|c.hour| + 2] == c.minute[1];
  }

  /** No format matches anywhere in a text where every possible separator start follows a non-space. */
  lemma SeparatorNeedsSpace(s: string, f: Format)
    requires |f.separator| > 0
    requires forall i :: 1 <= i < |s| && LowerChar(s[i]) == f.separator[0] ==> !IsSpace(s[i - 1])
    ensures FindFrom(s, f, 0).None?
  {
    if FindFrom(s, f, 0).Some? {
      var b := MatchSeparator(s, FindFrom(s, f, 0).value.at, f);
    }
  }

  /** The separator's first character (`t` or `-`), which folds to itself. */
  function Lead(sep: string): char
    requires IsSeparator(sep)
  {
    sep[0]
  }

  /**
   * Whitespace runs that end at the separator's lead character never start right after a
   * digit.
   */
  predicate LoneSeparator(s: string, sep: string)
    requires IsSeparator(sep)
  {
    forall j, b ::
      (0 <= j && j + 1 < b < |s| && LowerChar(s[b]) == Lead(sep) && forall k :: j < k < b ==> IsSpace(s[k]))
      ==> !IsDigit(s[j])
  }

  /** A one-period format also needs a digit right before the whitespace run ahead of its separator. */
  lemma SharedNeedsDigit(s: string, sep: string)
    requires IsSeparator(sep) && LoneSeparator(s, sep)
    ensures FindFrom(s, Format(sep, false), 0).None?
  {
    if FindFrom(s, Format(sep, false), 0).Some? {
      var j, b := SharedRun(s, FindFrom(s, Format(sep, false), 0).value.at, sep);
    }
  }

  // ---- which format the layouts select ----

  /** No character of `s` folds to `c`. */
  predicate Avoids(s: string, c: char) {
    forall i :: 0 <= i < |s| ==> LowerChar(s[i]) != c
  }

  lemma AvoidsConcat(a: string, b: string, c: char)
    requires Avoids(a, c) && Avoids(b, c)
    ensures Avoids(a + b, c)
  {
    forall i | 0 <= i < |a + b| ensures LowerChar((a + b)[i]) != c {
      if i >= |a| {
        assert (a + b)[i] == b[i - |a|];
      }
    }
  }

  /** Whitespace folds to itself, so a run of it avoids every non-space character. */
  lemma BlankAvoids(w: string, c: char)
    requires Blank(w) && !IsSpace(c)
    ensures Avoids(w, c)
  {
    forall i | 0 <= i < |w| ensures LowerChar(w[i]) != c {
      assert IsSpace(w[i]);
    }
  }

  lemma ClockAvoids(h: string, m: string, c: char)
    requires ValidClock(h, m) && !IsDigit(c) && c != ':'
    ensures Avoids(h + ":" + m, c)
  {
  }

  lemma PeriodAvoids(t: string, c: char)
    requires IsPeriod(t) && c != 'a' && c != 'p' && c != 'm'
    ensures Avoids(t, c)
  {
    PeriodChars(t);
  }

  lemma TimedAvoids(h: string, m: string, w: string, t: string, c: char)
    requires ValidClock(h, m) && Blank(w) && IsPeriod(t)
    requires !IsDigit(c) && c != ':' && !IsSpace(c) && c != 'a' && c != 'p' && c != 'm'
    ensures Avoids(h + ":" + m + w + t, c)
  {
    ClockAvoids(h, m, c);
    BlankAvoids(w, c);
    PeriodAvoids(t, c);
    AvoidsConcat(h + ":" + m, w, c);
    AvoidsConcat(h + ":" + m + w, t, c);
  }

  /** In `a + [x] + b`, with `a` and `b` avoiding `c`, only `x` can fold to `c`. */
  lemma OnlyAt(s: string, a: string, x: char, b: string, c: char)
    requires s == a + [x] + b && Avoids(a, c) && Avoids(b, c)
    ensures forall i :: 0 <= i < |s| && i != |a| ==> LowerChar(s[i]) != c
  {
    forall i | 0 <= i < |s| && i != |a| ensures LowerChar(s[i]) != c {
      if i < |a| {
        assert s[i] == a[i];
      } else {
        assert s[i] == b[i - |a| - 1];
      }
    }
  }

  /** In `head + (w1 + sep + w2) + tail`, the separator is the only place its lead character occurs. */
  lemma LayoutLead(s: string, head: string, w1: string, sep: string, w2: string, tail: string)
    requires IsSeparator(sep) && Blank(w1) && Blank(w2) && s == head + (w1 + sep + w2) + tail
    requires Avoids(head, Lead(sep)) && Avoids(tail, Lead(sep))
    ensures forall i :: 0 <= i < |s| && LowerChar(s[i]) == Lead(sep) ==> i == |head| + |w1|
  {
    var c := Lead(sep);
    BlankAvoids(w1, c);
    BlankAvoids(w2, c);
    AvoidsConcat(head, w1, c);
    assert Avoids(sep[1..], c);
    AvoidsConcat(sep[1..], w2, c);
    AvoidsConcat(sep[1..] + w2, tail, c);
    assert s == (head + w1) + [sep[0]] + (sep[1..] + w2 + tail);
    OnlyAt(s, head + w1, sep[0], sep[1..] + w2 + tail, c);
  }

  /** A layout avoids a non-space character its pieces and its separator avoid. */
  lemma LayoutAvoids(s: string, head: string, w1: string, sep: string, w2: string, tail: string, c: char)
    requires IsSeparator(sep) && Blank(w1) && Blank(w2) && s == head + (w1 + sep + w2) + tail
    requires Avoids(head, c) && Avoids(tail, c) && Avoids(sep, c) && !IsSpace(c)
    ensures Avoids(s, c)
  {
    BlankAvoids(w1, c);
    BlankAvoids(w2, c);
    AvoidsConcat(w1, sep, c);
    AvoidsConcat(w1 + sep, w2, c);
    AvoidsConcat(head, w1 + sep + w2, c);
    AvoidsConcat(head + (w1 + sep + w2), tail, c);
  }

  /** A layout whose head ends in a letter or punctuation, and whose pieces avoid the separator's lead. */
  lemma LayoutLone(s: string, head: string, w1: string, sep: string, w2: string, tail: string)
    requires IsSeparator(sep) && Blank(w1) && Blank(w2) && s == head + (w1 + sep + w2) + tail
    requires Avoids(head, Lead(sep)) && Avoids(tail, Lead(sep))
    requires |head| > 0 && !IsDigit(head[|head| - 1]) && !IsSpace(head[|head| - 1])
    ensures LoneSeparator(s, sep)
  {
    LayoutLead(s, head, w1, sep, w2, tail);
    var last := |head| - 1;
    assert s[last] == head[last];
    forall j, b | 0 <= j && j + 1 < b < |s| && LowerChar(s[b]) == Lead(sep)
      && (forall k :: j < k < b ==> IsSpace(s[k]))
      ensures !IsDigit(s[j])
    {
      if j < last {
        assert false;
      } else if j > last {
        assert s[j] == w1[j - |head|];
      }
    }
  }

  /**
   * A text that only some position `p` can match: no digit comes before `p`, so no clock,
   * and no format, can start earlier.
   */
  lemma FoundAfter(s: string, f: Format, p: nat)
    requires MatchAt(s, p, f).Some? && forall q :: 0 <= q < p ==> !IsDigit(s[q])
    ensures FindFrom(s, f, 0) == Some(Found(p, MatchAt(s, p, f).value))
  {
    forall q | 0 <= q < p ensures MatchAt(s, q, f).None? {
      MatchStartsWithDigit(s, q, f);
    }
  }

  lemma MatchStartsWithDigit(s: string, q: nat, f: Format)
    ensures MatchAt(s, q, f).Some? ==> q < |s| && IsDigit(s[q])
  {
    if MatchAt(s, q, f).Some? {
      var c := ClockAt(s, q).value;
      assert s[q] == s[q..c.end][0] == c.hour[0];
    }
  }

  /** The format chosen is the first one that matches somewhere. */
  lemma FirstFormatIs(s: string, formats: seq<Format>, k: nat, found: Found)
    requires k < |formats| && FindFrom(s, formats[k], 0) == Some(found)
    requires forall j :: 0 <= j < k ==> FindFrom(s, formats[j], 0).None?
    ensures FirstFormat(s, formats) == Some(Hit(k, found))
  {
  }

  function SharedIndex(sep: string): nat {
    if sep == "to" then 0 else 1
  }

  function SplitIndex(sep: string): nat {
    if sep == "to" then 2 else 3
  }

  /** A text the shared format with separator `sep` reads at its start, and in which `to` cannot match if `sep` is `-`. */
  lemma SharedChoice(s: string, sep: string, range: Range)
    requires IsSeparator(sep) && MatchAt(s, 0, Format(sep, false)) == Some(range)
    requires sep == "-" ==> Avoids(s, 't')
    ensures FirstFormat(s, Formats) == Some(Hit(SharedIndex(sep), Found(0, range)))
  {
    FoundAfter(s, Format(sep, false), 0);
    var k := SharedIndex(sep);
    assert Formats[k] == Format(sep, false);
    forall j | 0 <= j < k ensures FindFrom(s, Formats[j], 0).None? {
      assert j == 0 && sep == "-";
      SeparatorNeedsSpace(s, Formats[0]);
    }
    FirstFormatIs(s, Formats, k, Found(0, range));
  }

  /**
   * A one-period layout is read by the one-period format with its own separator, at the
   * start of the text: `to` by the first format tried, `-` by the second.
   */
  lemma SharedSelected(h1: string, m1: string, sep: string, h2: string, m2: string, period: string, g: Gaps)
    requires ValidClock(h1, m1) && ValidClock(h2, m2) && IsPeriod(period) && IsSeparator(sep) && SharedGaps(g)
    ensures FirstFormat(SharedText(h1, m1, sep, h2, m2, period, g), Formats)
         == Some(Hit(SharedIndex(sep), Found(0, Range(h1, m1, period, h2, m2, period))))
  {
    SharedRoundTrip(h1, m1, sep, h2, m2, period, g);
    if sep == "-" {
      SharedAvoids(h1, m1, sep, h2, m2, period, g, 't');
    }
    SharedChoice(SharedText(h1, m1, sep, h2, m2, period, g), sep, Range(h1, m1, period, h2, m2, period));
  }

  lemma SharedAvoids(h1: string, m1: string, sep: string, h2: string, m2: string, period: string, g: Gaps, c: char)
    requires ValidClock(h1, m1) && ValidClock(h2, m2) && IsPeriod(period) && IsSeparator(sep) && SharedGaps(g)
    requires Avoids(sep, c) && !IsDigit(c) && c != ':' && !IsSpace(c) && c != 'a' && c != 'p' && c != 'm'
    ensures Avoids(SharedText(h1, m1, sep, h2, m2, period, g), c)
  {
    var s := SharedText(h1, m1, sep, h2, m2, period, g);
    var head, tail := h1 + ":" + m1, h2 + ":" + m2 + g.endPeriod + period;
    assert s == head + (g.beforeSep + sep + g.afterSep) + tail;
    ClockAvoids(h1, m1, c);
    TimedAvoids(h2, m2, g.endPeriod, period, c);
    LayoutAvoids(s, head, g.beforeSep, sep, g.afterSep, tail, c);
  }

  /** The formats tried before the split one with `sep` fail on a text where `sep` is lone and the other separator absent. */
  lemma SplitEarlierMiss(s: string, sep: string)
    requires IsSeparator(sep) && LoneSeparator(s, sep) && Avoids(s, if sep == "to" then '-' else 't')
    ensures FindFrom(s, Formats[0], 0).None? && FindFrom(s, Formats[1], 0).None?
    ensures sep == "-" ==> FindFrom(s, Formats[2], 0).None?
  {
    assert Formats[0] == Format("to", false) && Formats[1] == Format("-", false) && Formats[2] == Format("to", true);
    if sep == "to" {
      SplitToEarlierMiss(s);
    } else {
      SplitDashEarlierMiss(s);
    }
  }

  /** On a text of the split layout with `to`, both shared formats fail everywhere ... */
  lemma SplitToEarlierMiss(s: string)
    requires LoneSeparator(s, "to") && Avoids(s, '-')
    ensures FindFrom(s, Format("to", false), 0).None? && FindFrom(s, Format("-", false), 0).None?
  {
    SharedNeedsDigit(s, "to");
    SeparatorNeedsSpace(s, Format("-", false));
  }

  /** ... and with `-`, so do both formats with `to` and the shared one with `-`. */
  lemma SplitDashEarlierMiss(s: string)
    requires LoneSeparator(s, "-") && Avoids(s, 't')
    ensures FindFrom(s, Format("to", false), 0).None? && FindFrom(s, Format("-", false), 0).None?
    ensures FindFrom(s, Format("to", true), 0).None?
  {
    SeparatorNeedsSpace(s, Format("to", false));
    SharedNeedsDigit(s, "-");
    SeparatorNeedsSpace(s, Format("to", true));
  }

  lemma SplitAvoids(h1: string, m1: string, p1: string, sep: string, h2: string, m2: string, p2: string, g: Gaps,
                    c: char)
    requires ValidClock(h1, m1) && ValidClock(h2, m2) && IsPeriod(p1) && IsPeriod(p2) && IsSeparator(sep)
    requires SplitGaps(g)
    requires !IsDigit(c) && c != ':' && !IsSpace(c) && c != 'a' && c != 'p' && c != 'm' && Avoids(sep, c)
    ensures Avoids(SplitText(h1, m1, p1, sep, h2, m2, p2, g), c)
  {
    var s := SplitText(h1, m1, p1, sep, h2, m2, p2, g);
    var head, tail := h1 + ":" + m1 + g.startPeriod + p1, h2 + ":" + m2 + g.endPeriod + p2;
    assert s == head + (g.beforeSep + sep + g.afterSep) + tail;
    TimedAvoids(h1, m1, g.startPeriod, p1, c);
    TimedAvoids(h2, m2, g.endPeriod, p2, c);
    LayoutAvoids(s, head, g.beforeSep, sep, g.afterSep, tail, c);
  }

  lemma SplitLone(h1: string, m1: string, p1: string, sep: string, h2: string, m2: string, p2: string, g: Gaps)
    requires ValidClock(h1, m1) && ValidClock(h2, m2) && IsPeriod(p1) && IsPeriod(p2) && IsSeparator(sep)
    requires SplitGaps(g)
    ensures LoneSeparator(SplitText(h1, m1, p1, sep, h2, m2, p2, g), sep)
  {
    var s := SplitText(h1, m1, p1, sep, h2, m2, p2, g);
    var head, tail := h1 + ":" + m1 + g.startPeriod + p1, h2 + ":" + m2 + g.endPeriod + p2;
    assert s == head + (g.beforeSep + sep + g.afterSep) + tail;
    TimedAvoids(h1, m1, g.startPeriod, p1, Lead(sep));
    TimedAvoids(h2, m2, g.endPeriod, p2, Lead(sep));
    PeriodChars(p1);
    assert head[|head| - 1] == p1[1];
    LayoutLone(s, head, g.beforeSep, sep, g.afterSep, tail);
  }

  /**
   * A layout with a period on each end is read by the two-period format with its own
   * separator, at the start of the text (third or fourth format tried): neither one-period
   * format can match it, since its separator follows a period rather than a minute digit.
   */
  lemma SplitSelected(h1: string, m1: string, p1: string, sep: string, h2: string, m2: string, p2: string, g: Gaps)
    requires ValidClock(h1, m1) && ValidClock(h2, m2) && IsPeriod(p1) && IsPeriod(p2) && IsSeparator(sep)
    requires SplitGaps(g)
    ensures FirstFormat(SplitText(h1, m1, p1, sep, h2, m2, p2, g), Formats)
         == Some(Hit(SplitIndex(sep), Found(0, Range(h1, m1, p1, h2, m2, p2))))
  {
    var s := SplitText(h1, m1, p1, sep, h2, m2, p2, g);
    SplitEarlierFormatsMiss(h1, m1, p1, sep, h2, m2, p2, g);
    SplitRoundTrip(h1, m1, p1, sep, h2, m2, p2, g);
    FoundAfter(s, Format(sep, true), 0);
    SplitChoice(s, sep, Found(0, Range(h1, m1, p1, h2, m2, p2)));
  }

  /** A text only the split format with separator `sep` finds is read by it. */
  lemma SplitChoice(s: string, sep: string, found: Found)
    requires IsSeparator(sep) && FindFrom(s, Format(sep, true), 0) == Some(found)
    requires FindFrom(s, Formats[0], 0).None? && FindFrom(s, Formats[1], 0).None?
    requires sep == "-" ==> FindFrom(s, Formats[2], 0).None?
    ensures FirstFormat(s, Formats) == Some(Hit(SplitIndex(sep), found))
  {
    var k := SplitIndex(sep);
    assert Formats[k] == Format(sep, true);
    forall j | 0 <= j < k ensures FindFrom(s, Formats[j], 0).None? {
      if j == 0 {
      } else if j == 1 {
      } else {
        assert j == 2;
      }
    }
    FirstFormatIs(s, Formats, k, found);
  }

  /** The formats tried before a split layout's own all fail on it. */
  lemma SplitEarlierFormatsMiss(h1: string, m1: string, p1: string, sep: string, h2: string, m2: string, p2: string,
                                g: Gaps)
    requires ValidClock(h1, m1) && ValidClock(h2, m2) && IsPeriod(p1) && IsPeriod(p2) && IsSeparator(sep)
    requires SplitGaps(g)
    ensures var s := SplitText(h1, m1, p1, sep, h2, m2, p2, g);
      && FindFrom(s, Formats[0], 0).None? && FindFrom(s, Formats[1], 0).None?
      && (sep == "-" ==> FindFrom(s, Formats[2], 0).None?)
  {
    SplitLone(h1, m1, p1, sep, h2, m2, p2, g);
    SplitAvoids(h1, m1, p1, sep, h2, m2, p2, g, if sep == "to" then '-' else 't');
    SplitEarlierMiss(SplitText(h1, m1, p1, sep, h2, m2, p2, g), sep);
  }

  // ---- what `parseTimeString` returns for an entry holding such a text ----

  /** A laid-out text passes the descendant filter, and `trim()` leaves it as it is. */
  lemma LayoutQualifies(s: string, head: string, w1: string, sep: string, w2: string, tail: string)
    requires IsSeparator(sep) && s == head + (w1 + sep + w2) + tail
    requires ClockAt(s, 0).Some? && 1 <= |tail| && !IsSpace(tail[|tail| - 1])
    ensures LooksLikeRange(s) && Trim(s) == s
  {
    var b := |head| + |w1|;
    assert s[b..b + |sep|] == sep;
    ContainsAt(s, sep, b);
    assert s[|s| - 1] == tail[|tail| - 1];
    assert IsDigit(s[0]);
    TrimUnchanged(s);
  }

  lemma SharedQualifies(h1: string, m1: string, sep: string, h2: string, m2: string, period: string, g: Gaps)
    requires ValidClock(h1, m1) && ValidClock(h2, m2) && IsPeriod(period) && IsSeparator(sep) && SharedGaps(g)
    ensures var s := SharedText(h1, m1, sep, h2, m2, period, g); LooksLikeRange(s) && Trim(s) == s
  {
    var s := SharedText(h1, m1, sep, h2, m2, period, g);
    var tail := h2 + ":" + m2 + g.endPeriod + period;
    assert s == h1 + ":" + m1 + (g.beforeSep + sep + g.afterSep) + tail;
    SharedRoundTrip(h1, m1, sep, h2, m2, period, g);
    PeriodChars(period);
    assert tail[|tail| - 1] == period[1];
    LayoutQualifies(s, h1 + ":" + m1, g.beforeSep, sep, g.afterSep, tail);
  }

  lemma SplitQualifies(h1: string, m1: string, p1: string, sep: string, h2: string, m2: string, p2: string, g: Gaps)
    requires ValidClock(h1, m1) && ValidClock(h2, m2) && IsPeriod(p1) && IsPeriod(p2) && IsSeparator(sep)
    requires SplitGaps(g)
    ensures var s := SplitText(h1, m1, p1, sep, h2, m2, p2, g); LooksLikeRange(s) && Trim(s) == s
  {
    var s := SplitText(h1, m1, p1, sep, h2, m2, p2, g);
    var tail := h2 + ":" + m2 + g.endPeriod + p2;
    assert s == h1 + ":" + m1 + g.startPeriod + p1 + (g.beforeSep + sep + g.afterSep) + tail;
    SplitRoundTrip(h1, m1, p1, sep, h2, m2, p2, g);
    PeriodChars(p2);
    assert tail[|tail| - 1] == p2[1];
    LayoutQualifies(s, h1 + ":" + m1 + g.startPeriod + p1, g.beforeSep, sep, g.afterSep, tail);
  }

  /**
   * An entry whose first range-like descendant, once trimmed, reads `H:MM SEP H:MM P` gets
   * start `H:MM P` and end `H:MM P`: the one period is copied onto both ends, whatever the
   * other descendants, the labels and the text.
   */
  lemma SharedTextParses(h1: string, m1: string, sep: string, h2: string, m2: string, period: string, g: Gaps,
                         descendants: seq<string>, startLabel: Option<string>, endLabel: Option<string>, text: string)
    requires ValidClock(h1, m1) && ValidClock(h2, m2) && IsPeriod(period) && IsSeparator(sep) && SharedGaps(g)
    requires FirstRangeText(descendants).Some?
    requires Trim(FirstRangeText(descendants).value) == SharedText(h1, m1, sep, h2, m2, period, g)
    ensures ParseTimeString(descendants, startLabel, endLabel, text)
         == Times(ClockText(h1, m1, period), ClockText(h2, m2, period))
  {
    SharedSelected(h1, m1, sep, h2, m2, period, g);
  }

  /** An entry whose first range-like descendant reads `H:MM P SEP H:MM P` keeps each end's own period. */
  lemma SplitTextParses(h1: string, m1: string, p1: string, sep: string, h2: string, m2: string, p2: string, g: Gaps,
                        descendants: seq<string>, startLabel: Option<string>, endLabel: Option<string>, text: string)
    requires ValidClock(h1, m1) && ValidClock(h2, m2) && IsPeriod(p1) && IsPeriod(p2) && IsSeparator(sep)
    requires SplitGaps(g)
    requires FirstRangeText(descendants).Some?
    requires Trim(FirstRangeText(descendants).value) == SplitText(h1, m1, p1, sep, h2, m2, p2, g)
    ensures ParseTimeString(descendants, startLabel, endLabel, text)
         == Times(ClockText(h1, m1, p1), ClockText(h2, m2, p2))
  {
    SplitSelected(h1, m1, p1, sep, h2, m2, p2, g);
  }

  /**
   * A `to` range with one trailing period is read the same way inside longer text, such as
   * `Open Play 7:00 to 9:00 PM Court 3`, when no digit comes before it: no clock, and so no
   * match, can start earlier, and the `to` format is the first one tried.
   */
  lemma SharedToInText(prefix: string, h1: string, m1: string, h2: string, m2: string, period: string, g: Gaps,
                       suffix: string, descendants: seq<string>, startLabel: Option<string>,
                       endLabel: Option<string>, text: string)
    requires ValidClock(h1, m1) && ValidClock(h2, m2) && IsPeriod(period) && SharedGaps(g)
    requires forall i :: 0 <= i < |prefix| ==> !IsDigit(prefix[i])
    requires FirstRangeText(descendants).Some?
    requires Trim(FirstRangeText(descendants).value) == prefix + SharedText(h1, m1, "to", h2, m2, period, g) + suffix
    ensures ParseTimeString(descendants, startLabel, endLabel, text)
         == Times(ClockText(h1, m1, period), ClockText(h2, m2, period))
  {
    var x := SharedText(h1, m1, "to", h2, m2, period, g);
    var s := prefix + x + suffix;
    var p := |prefix|;
    assert s[p..p + |x|] == x;
    SharedParts(s, p, h1, m1, "to", h2, m2, period, g);
    forall q | 0 <= q < p ensures !IsDigit(s[q]) {
      assert s[q] == prefix[q];
    }
    FoundAfter(s, Format("to", false), p);
    FirstFormatIs(s, Formats, 0, Found(p, Range(h1, m1, period, h2, m2, period)));
  }

  /**
   * The copied period misreads a morning start: `11:30 to 12:30 PM` starts at `11:30 PM`,
   * so the start's sort key lies after the end's.
   */
  lemma MorningStartReadAsEvening(h1: string, m1: string, sep: string, h2: string, m2: string, g: Gaps,
                                  descendants: seq<string>, startLabel: Option<string>, endLabel: Option<string>,
                                  text: string)
    requires ValidClock(h1, m1) && 1 <= DigitsValue(h1) <= 11 && DigitsValue(m1) <= 59
    requires ValidClock(h2, m2) && DigitsValue(h2) == 12 && DigitsValue(m2) <= 59 && IsSeparator(sep)
    requires SharedGaps(g) && FirstRangeText(descendants).Some?
    requires Trim(FirstRangeText(descendants).value) == SharedText(h1, m1, sep, h2, m2, "PM", g)
    ensures var t := ParseTimeString(descendants, startLabel, endLabel, text);
      && t.startTime == ClockText(h1, m1, "PM")
      && ClockShaped(t.startTime) && ClockShaped(t.endTime)
      && TimeValue(t.startTime) == (DigitsValue(h1) + 12) * 60 + DigitsValue(m1)
      && TimeValue(t.startTime) > TimeValue(t.endTime)
  {
    PeriodsArePeriods();
    SharedTextParses(h1, m1, sep, h2, m2, "PM", g, descendants, startLabel, endLabel, text);
    EveningBeforeNoon(h1, m1, h2, m2);
  }

  lemma PeriodsArePeriods()
    ensures IsPeriod("PM") && IsPeriod("pm")
  {
    assert ToLower("PM") == [LowerChar('P'), LowerChar('M')];
    assert ToLower("pm") == [LowerChar('p'), LowerChar('m')];
  }

  lemma EveningBeforeNoon(h1: string, m1: string, h2: string, m2: string)
    requires ValidClock(h1, m1) && 1 <= DigitsValue(h1) <= 11 && DigitsValue(m1) <= 59
    requires ValidClock(h2, m2) && DigitsValue(h2) == 12 && DigitsValue(m2) <= 59
    ensures ClockShaped(ClockText(h1, m1, "PM")) && ClockShaped(ClockText(h2, m2, "PM"))
    ensures TimeValue(ClockText(h1, m1, "PM")) == (DigitsValue(h1) + 12) * 60 + DigitsValue(m1)
    ensures TimeValue(ClockText(h1, m1, "PM")) > TimeValue(ClockText(h2, m2, "PM"))
  {
    TimeValueIsClockMinutes(h1, m1, "PM");
    TimeValueIsClockMinutes(h2, m2, "PM");
    AfternoonMinutes(DigitsValue(h1), DigitsValue(m1));
  }

  lemma AfternoonMinutes(h: nat, m: nat)
    requires 1 <= h <= 11
    ensures ClockMinutes(h, m, true) == (h + 12) * 60 + m
  {
  }

  /** A lower-case period passes through as written, and the sort key then ignores it. */
  lemma LowerCasePeriodKept(h1: string, m1: string, sep: string, h2: string, m2: string, g: Gaps,
                            descendants: seq<string>, startLabel: Option<string>, endLabel: Option<string>,
                            text: string)
    requires ValidClock(h1, m1) && ValidClock(h2, m2) && IsSeparator(sep) && SharedGaps(g)
    requires FirstRangeText(descendants).Some?
    requires Trim(FirstRangeText(descendants).value) == SharedText(h1, m1, sep, h2, m2, "pm", g)
    ensures var t := ParseTimeString(descendants, startLabel, endLabel, text);
      && t.startTime == ClockText(h1, m1, "pm") && t.endTime == ClockText(h2, m2, "pm")
      && ClockShaped(t.startTime)
      && TimeValue(t.startTime) == DigitsValue(h1) * 60 + DigitsValue(m1)
  {
    PeriodsArePeriods();
    SharedTextParses(h1, m1, sep, h2, m2, "pm", g, descendants, startLabel, endLabel, text);
    LowerPmKey(h1, m1);
  }

  lemma LowerPmKey(h: string, m: string)
    requires ValidClock(h, m)
    ensures ClockShaped(ClockText(h, m, "pm")) && TimeValue(ClockText(h, m, "pm")) == DigitsValue(h) * 60 + DigitsValue(m)
  {
    assert NoSpace("pm") && "pm" != "AM" && "pm" != "PM";
    OtherPeriodKeepsHours(h, m, "pm");
  }
}
