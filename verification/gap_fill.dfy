/**
 * The gap fill after the day sort: when some days came back without sessions, the first
 * day (in sorted order) that has sessions serves as a template, and each empty day gets a
 * copy of its list, renumbered for that day and marked as based on the template.
 */
module GapFill {
  import opened Wrappers
  import opened Text
  import opened Calendar
  import opened Sessions
  import opened Schedule

  /** `daysArray.find(day => day.sessions.length > 0)`, as an index. */
  function TemplateIndex(days: seq<Day>): (r: Option<nat>)
    ensures r.Some? ==> r.value < |days| && days[r.value].sessions != []
    ensures r.Some? ==> forall j :: 0 <= j < r.value ==> days[j].sessions == []
    ensures r.None? <==> forall j :: 0 <= j < |days| ==> days[j].sessions == []
  {
    TemplateFrom(days, 0)
  }

  function TemplateFrom(days: seq<Day>, from: nat): (r: Option<nat>)
    requires from <= |days|
    ensures r.Some? ==> from <= r.value < |days| && days[r.value].sessions != []
    ensures r.Some? ==> forall j :: from <= j < r.value ==> days[j].sessions == []
    ensures r.None? <==> forall j :: from <= j < |days| ==> days[j].sessions == []
    decreases |days| - from
  {
    if from == |days| then None
    else if days[from].sessions != [] then Some(from)
    else TemplateFrom(days, from + 1)
  }

  /**
   * The copy's subtitle: the template session's subtitle followed by ` (Based on NAME)`, or
   * `Based on NAME` alone when it has none (an empty subtitle counts as none).
   */
  function BasedOn(subtitle: Option<string>, template: Weekday): string {
    if subtitle.Some? && subtitle.value != "" then subtitle.value + " (Based on " + template.Name() + ")"
    else "Based on " + template.Name()
  }

  /** The copy of the template's `index`-th session for `day`. */
  function CopySession(session: Session, index: nat, day: Day, template: Day): Session {
    var title :=
      if Contains(session.title, template.name.Name()) then ReplaceFirst(session.title, template.name.Name(), day.name.Name())
      else session.title;
    session.(id := SessionId(day.name, day.date, index), title := title,
             subtitle := Some(BasedOn(session.subtitle, template.name)))
  }

  /** `templateDay.sessions.map(...)` for `day`. */
  function Copies(template: Day, day: Day): (r: seq<Session>)
    ensures |r| == |template.sessions|
  {
    seq(|template.sessions|, k requires 0 <= k < |template.sessions| => CopySession(template.sessions[k], k, day, template))
  }

  /** The days after the gap fill. */
  function GapFilled(days: seq<Day>): (r: seq<Day>)
    ensures |r| == |days|
  {
    match TemplateIndex(days)
    case None => days
    case Some(t) =>
      seq(|days|, i requires 0 <= i < |days| =>
        if days[i].sessions == [] then days[i].(sessions := Copies(days[t], days[i])) else days[i])
  }

  /** The indices of the days without sessions, in order. */
  function EmptyDays(days: seq<Day>): (r: seq<nat>)
    ensures forall j :: j in r <==> 0 <= j < |days| && days[j].sessions == []
    ensures forall a, b :: 0 <= a < b < |r| ==> r[a] < r[b]
  {
    if |days| == 0 then []
    else
      var last := |days| - 1;
      var init := EmptyDays(days[..last]);
      assert forall a :: 0 <= a < |init| ==> init[a] in init && init[a] < last;
      init + (if days[last].sessions == [] then [last] else [])
  }

  /** The `map` callback applied to every session of the template, in order. */
  method CopySessions(template: Day, day: Day) returns (sessions: seq<Session>)
    ensures sessions == Copies(template, day)
  {
    sessions := [];
    for index := 0 to |template.sessions|
      invariant |sessions| == index
      invariant forall k :: 0 <= k < index ==> sessions[k] == CopySession(template.sessions[k], k, day, template)
    {
      var session := template.sessions[index];
      var newSession := session.(id := SessionId(day.name, day.date, index));
      if Contains(newSession.title, template.name.Name()) {
        newSession := newSession.(title := ReplaceFirst(newSession.title, template.name.Name(), day.name.Name()));
      }
      newSession := newSession.(subtitle := Some(BasedOn(session.subtitle, template.name)));
      sessions := sessions + [newSession];
    }
  }

  /** `daysArray.filter(day => day.sessions.length === 0)`, as indices. */
  method FindEmptyDays(days: array<Day>) returns (daysWithNoSessions: seq<nat>)
    ensures daysWithNoSessions == EmptyDays(days[..])
  {
    daysWithNoSessions := [];
    for i := 0 to days.Length
      invariant daysWithNoSessions == EmptyDays(days[..i])
    {
      assert days[..i + 1][..i] == days[..i];
      if days[i].sessions == [] {
        daysWithNoSessions := daysWithNoSessions + [i];
      }
    }
    assert days[..days.Length] == days[..];
  }

  /** `daysArray.find(day => day.sessions.length > 0)`, as an index. */
  method FindTemplate(days: array<Day>) returns (template: Option<nat>)
    ensures template == TemplateIndex(days[..])
  {
    var t := 0;
    while t < days.Length && days[t].sessions == []
      invariant t <= days.Length
      invariant forall j :: 0 <= j < t ==> days[j].sessions == []
    {
      t := t + 1;
    }
    template := if t == days.Length then None else Some(t);
  }

  /** Without empty days the gap fill changes nothing. */
  lemma NoEmptyDays(days: seq<Day>)
    requires EmptyDays(days) == []
    ensures GapFilled(days) == days
  {
    assert forall i :: 0 <= i < |days| ==> i !in EmptyDays(days);
  }

  /** The gap fill, overwriting the sessions of each empty day in place. */
  method FillGaps(days: array<Day>)
    modifies days
    ensures days[..] == GapFilled(old(days[..]))
  {
    var daysWithNoSessions := FindEmptyDays(days);
    if |daysWithNoSessions| == 0 {
      NoEmptyDays(days[..]);
      return;
    }
    var template := FindTemplate(days);
    if template.None? {
      return;
    }
    CopyIntoEmptyDays(days, daysWithNoSessions, days[template.value]);
  }

  /** `daysWithNoSessions.forEach(day => day.sessions = ...)` with the template day's list. */
  method CopyIntoEmptyDays(days: array<Day>, daysWithNoSessions: seq<nat>, templateDay: Day)
    requires daysWithNoSessions == EmptyDays(days[..])
    requires TemplateIndex(days[..]).Some? && templateDay == days[TemplateIndex(days[..]).value]
    modifies days
    ensures days[..] == GapFilled(old(days[..]))
  {
    ghost var original := days[..];
    for m := 0 to |daysWithNoSessions|
      invariant CopiedUpTo(days[..], original, daysWithNoSessions, m, templateDay)
    {
      var i := daysWithNoSessions[m];
      assert i in daysWithNoSessions;
      var copies := CopySessions(templateDay, days[i]);
      CopyStep(days[..], original, daysWithNoSessions, m, templateDay);
      ghost var before := days[..];
      days[i] := days[i].(sessions := copies);
      assert days[..] == before[i := before[i].(sessions := copies)];
    }
    CopyDone(days[..], original, templateDay);
  }

  /** The days listed in `list[..m]` hold their copies of the template; the others are untouched. */
  ghost predicate CopiedUpTo(current: seq<Day>, original: seq<Day>, list: seq<nat>, m: nat, templateDay: Day)
    requires m <= |list|
  {
    |current| == |original| && forall j :: 0 <= j < |current| ==>
      current[j] == if j in list[..m] then original[j].(sessions := Copies(templateDay, original[j])) else original[j]
  }

  /** Copying into the next listed day, which no earlier entry names, extends the copied prefix by one. */
  lemma CopyStep(current: seq<Day>, original: seq<Day>, list: seq<nat>, m: nat, templateDay: Day)
    requires m < |list| && list[m] < |current|
    requires forall a, b :: 0 <= a < b < |list| ==> list[a] < list[b]
    requires CopiedUpTo(current, original, list, m, templateDay)
    ensures var i := list[m];
      current[i] == original[i]
      && CopiedUpTo(current[i := current[i].(sessions := Copies(templateDay, current[i]))], original, list, m + 1, templateDay)
  {
    var i := list[m];
    assert i !in list[..m];
    assert list[..m + 1] == list[..m] + [i];
  }

  /** Once every empty day holds its copy of the first day with sessions, the days are gap filled. */
  lemma CopyDone(current: seq<Day>, original: seq<Day>, templateDay: Day)
    requires TemplateIndex(original).Some? && templateDay == original[TemplateIndex(original).value]
    requires CopiedUpTo(current, original, EmptyDays(original), |EmptyDays(original)|, templateDay)
    ensures current == GapFilled(original)
  {
    var list := EmptyDays(original);
    assert list[..|list|] == list;
  }

  // ---- what the gap fill promises ----

  /**
   * The gap fill keeps every day's name, date, header and highlight, leaves the days that
   * have sessions (the template among them) as they are, and changes nothing at all when no
   * day has sessions.
   */
  lemma GapFillKeeps(days: seq<Day>)
    ensures var r := GapFilled(days);
      forall i :: 0 <= i < |days| ==>
        (r[i].name == days[i].name && r[i].date == days[i].date
         && r[i].header == days[i].header && r[i].highlight == days[i].highlight)
    ensures forall i :: 0 <= i < |days| && days[i].sessions != [] ==> GapFilled(days)[i] == days[i]
    ensures (forall i :: 0 <= i < |days| ==> days[i].sessions == []) ==> GapFilled(days) == days
  {
  }

  /**
   * When some day has sessions, every day has sessions afterwards, and each day that had
   * none now holds as many as the first day with sessions, copied in its order.
   */
  lemma GapFillFills(days: seq<Day>, t: nat)
    requires t < |days| && days[t].sessions != []
    requires forall j :: 0 <= j < t ==> days[j].sessions == []
    ensures forall i :: 0 <= i < |days| ==> GapFilled(days)[i].sessions != []
    ensures forall i :: 0 <= i < |days| && days[i].sessions == [] ==>
      GapFilled(days)[i].sessions == Copies(days[t], days[i])
  {
    assert TemplateIndex(days) == Some(t);
  }

  /**
   * A copied session keeps the template session's times, location and status, is numbered
   * by its position in the template's list for the new day, and carries the `Based on`
   * subtitle.
   */
  lemma CopyFields(template: Day, day: Day, k: nat)
    requires k < |template.sessions|
    ensures var c, s := Copies(template, day)[k], template.sessions[k];
      && c.startTime == s.startTime && c.endTime == s.endTime
      && c.location == s.location && c.status == s.status
      && c.id == SessionId(day.name, day.date, k)
      && c.subtitle == Some(BasedOn(s.subtitle, template.name))
  {
  }

  /**
   * In a copy's title only the first occurrence of the template's name is replaced by the
   * new day's name; the text before it (which holds no occurrence) and everything after it,
   * later occurrences included, stay as they were. A title without the name is kept.
   */
  lemma CopyTitle(template: Day, day: Day, k: nat)
    requires k < |template.sessions|
    ensures var title, name := template.sessions[k].title, template.name.Name();
      var c := Copies(template, day)[k];
      match IndexOf(title, name)
      case None => c.title == title
      case Some(i) =>
        && (forall j :: 0 <= j < i ==> !OccursAt(title, name, j))
        && c.title == title[..i] + day.name.Name() + title[i + |name|..]
  {
  }

  /** The subtitle names the template day, in either form. */
  lemma BasedOnNames(subtitle: Option<string>, template: Weekday)
    ensures var r, name := BasedOn(subtitle, template), template.Name();
      if subtitle.Some? && subtitle.value != "" then
        && r[..|subtitle.value|] == subtitle.value
        && r[|subtitle.value|..] == " (Based on " + name + ")"
        && OccursAt(r, "Based on " + name, |subtitle.value| + 2)
      else r == "Based on " + name
  {
    if subtitle.Some? && subtitle.value != "" {
      Parenthesised(subtitle.value, template.Name());
    }
  }

  /**
   * `a (Based on n)` starts with `a`, then ` (Based on n)`, and holds `Based on n` two
   * characters after `a`.
   */
  lemma Parenthesised(a: string, n: string)
    ensures var r := a + " (Based on " + n + ")";
      r[..|a|] == a && r[|a|..] == " (Based on " + n + ")" && OccursAt(r, "Based on " + n, |a| + 2)
  {
    var r, b := a + " (Based on " + n + ")", "Based on " + n;
    assert r == a + " (" + b + ")";
    assert r[|a| + 2..|a| + 2 + |b|] == b;
    assert r == a + (" (Based on " + n + ")");
  }
}
