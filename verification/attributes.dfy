/**
 * The per-entry attributes other than the times: the title and the location, each taken
 * from the first of an ordered list of selectors whose element has non-blank text; the
 * booking status; and the skill level read off the title.
 *
 * An entry's DOM is given by what `querySelector` would return for each selector the scraper
 * asks about: a map from the selector to the text content of the first matching element,
 * with no key when no element matches.
 */
module Attributes {
  import opened Wrappers
  import opened Text

  const TitleSelectors: seq<string> := [
    ".planner-entry-title a span", ".planner-entry-title span", ".planner-entry-title",
    ".title", "[class*='title']", "a span", "a"]
  const DefaultTitle: string := "Pickleball Open Play"

  const LocationSelectors: seq<string> := [
    ".planner-col-md-3:nth-child(4)", ".location", "[class*='location']", ".venue", "[class*='venue']"]
  const DefaultLocation: string := "Indoor Pickleball Courts"

  const StatusSelector: string := ".status, [class*=\"status\"], .availability, [class*=\"availability\"]"

  /** `entry.querySelector(selector)?.textContent`. */
  function Query(found: map<string, string>, selector: string): Option<string> {
    if selector in found then Some(found[selector]) else None
  }

  /** The selector finds an element whose text is not all whitespace, so that its trimmed text is not empty. */
  predicate Usable(found: map<string, string>, selector: string) {
    selector in found && HasNonSpace(found[selector])
  }

  predicate HasNonSpace(t: string) {
    exists i :: 0 <= i < |t| && !IsSpace(t[i])
  }

  /** `trim()` leaves nothing exactly when the text is all whitespace. */
  lemma TrimEmpty(t: string)
    ensures Trim(t) == "" <==> !HasNonSpace(t)
  {
    var a := TrimStart(t);
    if HasNonSpace(t) {
      NonSpaceSurvivesStart(t);
      TrimEndKeepsFirst(a);
    }
  }

  lemma NonSpaceSurvivesStart(t: string)
    requires HasNonSpace(t)
    ensures |TrimStart(t)| > 0
  {
    var i :| 0 <= i < |t| && !IsSpace(t[i]);
    assert i >= |t| - |TrimStart(t)|;
  }

  lemma TrimEndKeepsFirst(a: string)
    requires |a| > 0 && !IsSpace(a[0])
    ensures |TrimEnd(a)| > 0
  {
  }

  /** The index of the first usable selector. */
  function FirstUsable(found: map<string, string>, selectors: seq<string>): (r: Option<nat>)
    ensures r.Some? ==> r.value < |selectors| && Usable(found, selectors[r.value])
    ensures r.Some? ==> forall j :: 0 <= j < r.value ==> !Usable(found, selectors[j])
    ensures r.None? ==> forall j :: 0 <= j < |selectors| ==> !Usable(found, selectors[j])
  {
    if |selectors| == 0 then None
    else if Usable(found, selectors[0]) then Some(0)
    else
      var rest := selectors[1..];
      assert forall j :: 0 <= j < |rest| ==> rest[j] == selectors[j + 1];
      match FirstUsable(found, rest)
      case None => None
      case Some(i) => Some(i + 1)
  }

  /** The text the selector chain settles on: the first usable element's trimmed text, else the default. */
  function Chosen(found: map<string, string>, selectors: seq<string>, default: string): string {
    match FirstUsable(found, selectors)
    case Some(i) => Trim(found[selectors[i]])
    case None => default
  }

  /**
   * The selector loop of the title and location code: try each selector in turn, stop at the
   * first element with non-blank trimmed text, and keep the default when there is none.
   */
  method SelectText(found: map<string, string>, selectors: seq<string>, default: string) returns (text: string)
    ensures text == Chosen(found, selectors, default)
  {
    text := default;
    for k := 0 to |selectors|
      invariant forall j :: 0 <= j < k ==> !Usable(found, selectors[j])
      invariant text == default
    {
      var element := Query(found, selectors[k]);
      if element.Some? {
        var t := Trim(element.value);
        TrimEmpty(element.value);
        if t != "" && |t| > 0 {
          text := t;
          FirstUsableIs(found, selectors, k);
          return;
        }
      }
    }
    FirstUsableNone(found, selectors);
  }

  lemma FirstUsableIs(found: map<string, string>, selectors: seq<string>, k: nat)
    requires k < |selectors| && Usable(found, selectors[k])
    requires forall j :: 0 <= j < k ==> !Usable(found, selectors[j])
    ensures FirstUsable(found, selectors) == Some(k)
  {
  }

  lemma FirstUsableNone(found: map<string, string>, selectors: seq<string>)
    requires forall j :: 0 <= j < |selectors| ==> !Usable(found, selectors[j])
    ensures FirstUsable(found, selectors).None?
  {
  }

  /** The chain's answer is the default or the trimmed text of an element one of its selectors found. */
  lemma ChosenIsFoundOrDefault(found: map<string, string>, selectors: seq<string>, default: string)
    ensures var t := Chosen(found, selectors, default);
      || (t == default && forall j :: 0 <= j < |selectors| ==> !Usable(found, selectors[j]))
      || exists j :: 0 <= j < |selectors| && selectors[j] in found && t == Trim(found[selectors[j]]) && t != ""
  {
    match FirstUsable(found, selectors)
    case None =>
    case Some(i) =>
      TrimEmpty(found[selectors[i]]);
      assert selectors[i] in found && Trim(found[selectors[i]]) != "";
  }

  /** Selectors after the first usable one make no difference. */
  lemma ChosenIgnoresLater(found: map<string, string>, selectors: seq<string>, later: seq<string>, default: string)
    requires exists j :: 0 <= j < |selectors| && Usable(found, selectors[j])
    ensures Chosen(found, selectors + later, default) == Chosen(found, selectors, default)
  {
    var i := FirstUsable(found, selectors).value;
    assert (selectors + later)[i] == selectors[i];
    forall j | 0 <= j < i ensures !Usable(found, (selectors + later)[j]) {
      assert (selectors + later)[j] == selectors[j];
    }
    FirstUsableIs(found, selectors + later, i);
  }

  // ---- status ----

  datatype Status = Waitlist | Reserve

  /**
   * The status element's trimmed, lower-cased text: `waitlist` gives Waitlist, otherwise
   * `reserve` or `book` gives Reserve, otherwise (or with no status element) there is none.
   */
  function StatusOf(element: Option<string>): (r: Option<Status>)
    ensures r == Some(Waitlist) <==> element.Some? && Contains(ToLower(Trim(element.value)), "waitlist")
    ensures r == Some(Reserve) <==> (element.Some? && !Contains(ToLower(Trim(element.value)), "waitlist")
      && (Contains(ToLower(Trim(element.value)), "reserve") || Contains(ToLower(Trim(element.value)), "book")))
  {
    match element
    case None => None
    case Some(text) =>
      var t := ToLower(Trim(text));
      if Contains(t, "waitlist") then Some(Waitlist)
      else if Contains(t, "reserve") || Contains(t, "book") then Some(Reserve)
      else None
  }

  // ---- skill level ----

  /** The end of the run of digits that starts at `p`. */
  function DigitRunEnd(s: string, p: nat): (e: nat)
    requires p <= |s|
    ensures p <= e <= |s| && (e == |s| || !IsDigit(s[e]))
    ensures forall i :: p <= i < e ==> IsDigit(s[i])
    decreases |s| - p
  {
    if p < |s| && IsDigit(s[p]) then DigitRunEnd(s, p + 1) else p
  }

  /**
   * `\d\.\d+[+-]?` at `p`: the end of the match. The regular expression's second alternative,
   * `\d\.\d+\s*-\s*\d\.\d+`, starts with the first one, which always succeeds where it would,
   * so it is never the one chosen.
   */
  function NumberAt(s: string, p: nat): (r: Option<nat>)
    ensures r.Some? ==> p + 3 <= r.value <= |s| && IsSkillNumber(s[p..r.value])
  {
    if p + 3 <= |s| && IsDigit(s[p]) && s[p + 1] == '.' && IsDigit(s[p + 2]) then
      var e := DigitRunEnd(s, p + 2);
      var end := if e < |s| && (s[e] == '+' || s[e] == '-') then e + 1 else e;
      assert IsSkillNumber(s[p..end]) by {
        var w := s[p..end];
        assert forall i :: 2 <= i < e - p ==> w[i] == s[p + i];
      }
      Some(end)
    else None
  }

  /** A digit, a dot, one or more digits and at most one trailing `+` or `-`. */
  predicate IsSkillNumber(w: string) {
    var n := if |w| > 0 && (w[|w| - 1] == '+' || w[|w| - 1] == '-') then |w| - 1 else |w|;
    3 <= n && IsDigit(w[0]) && w[1] == '.' && forall i :: 2 <= i < n ==> IsDigit(w[i])
  }

  /** Where the first skill number of `s` at or after `p` starts, and where it ends. */
  datatype Span = Span(at: nat, end: nat)

  function FirstNumber(s: string, p: nat): (r: Option<Span>)
    ensures r.Some? ==> p <= r.value.at && NumberAt(s, r.value.at) == Some(r.value.end)
    ensures r.Some? ==> forall q :: p <= q < r.value.at ==> NumberAt(s, q).None?
    ensures r.None? ==> forall q :: p <= q ==> NumberAt(s, q).None?
    decreases |s| - p
  {
    if p >= |s| then None
    else
      match NumberAt(s, p)
      case Some(end) => Some(Span(p, end))
      case None => FirstNumber(s, p + 1)
  }

  /**
   * `extractSkillLevel(title)`: on the lower-cased title, the first of `all levels`,
   * `beginner`, `intermediate` and `advanced` that occurs, as a label, else the first skill
   * number upper-cased, else none.
   */
  function SkillLevel(title: string): (r: Option<string>)
    ensures r.Some? ==> r.value != ""
  {
    var lower := ToLower(title);
    if Contains(lower, "all levels") then Some("All Levels")
    else if Contains(lower, "beginner") then Some("Beginner")
    else if Contains(lower, "intermediate") then Some("Intermediate")
    else if Contains(lower, "advanced") then Some("Advanced")
    else
      match FirstNumber(lower, 0)
      case Some(span) => Some(ToUpper(lower[span.at..span.end]))
      case None => None
  }

  /** The session's subtitle: set exactly when there is a skill level. */
  function Subtitle(skill: Option<string>): (r: Option<string>)
    ensures r.Some? <==> skill.Some?
    ensures skill.Some? ==> (|r.value| == 13 + |skill.value|
      && r.value[..13] == "Skill Level: " && r.value[13..] == skill.value)
  {
    match skill
    case Some(level) => Some("Skill Level: " + level)
    case None => None
  }

  /** The four labels, in the order they are looked for. */
  const SkillKeywords: seq<string> := ["all levels", "beginner", "intermediate", "advanced"]
  const SkillLabels: seq<string> := ["All Levels", "Beginner", "Intermediate", "Advanced"]

  /**
   * A label wins over any number in the title: with `advanced` anywhere in it, `3.5+ Advanced`
   * is labelled `Advanced`, not `3.5+`. The label is the first keyword in the list that occurs.
   */
  lemma KeywordBeatsNumber(title: string, k: nat)
    requires k < |SkillKeywords| && Contains(ToLower(title), SkillKeywords[k])
    requires forall j :: 0 <= j < k ==> !Contains(ToLower(title), SkillKeywords[j])
    ensures SkillLevel(title) == Some(SkillLabels[k])
  {
    var lower := ToLower(title);
    if k == 0 {
      assert Contains(lower, "all levels");
    } else if k == 1 {
      assert !Contains(lower, SkillKeywords[0]) && Contains(lower, "beginner");
    } else if k == 2 {
      assert !Contains(lower, SkillKeywords[0]) && !Contains(lower, SkillKeywords[1]);
      assert Contains(lower, "intermediate");
    } else {
      assert !Contains(lower, SkillKeywords[0]) && !Contains(lower, SkillKeywords[1]);
      assert !Contains(lower, SkillKeywords[2]) && Contains(lower, "advanced");
    }
  }

  /**
   * Without a keyword, the level is the leftmost skill number of the lower-cased title, upper-cased
   * (which leaves its digits, dot and sign alone), and there is none exactly when the title holds
   * no skill number.
   */
  lemma NumericLevel(title: string)
    requires forall j :: 0 <= j < |SkillKeywords| ==> !Contains(ToLower(title), SkillKeywords[j])
    ensures SkillLevel(title).None? <==> forall q: nat :: NumberAt(ToLower(title), q).None?
    ensures SkillLevel(title).Some? ==>
      exists q: nat, e: nat :: (NumberAt(ToLower(title), q) == Some(e)
        && SkillLevel(title).value == ToLower(title)[q..e]
        && forall q': nat :: q' < q ==> NumberAt(ToLower(title), q').None?)
  {
    var lower := ToLower(title);
    assert !Contains(lower, SkillKeywords[0]) && !Contains(lower, SkillKeywords[1]);
    assert !Contains(lower, SkillKeywords[2]) && !Contains(lower, SkillKeywords[3]);
    match FirstNumber(lower, 0)
    case None =>
    case Some(span) =>
      var w := lower[span.at..span.end];
      assert IsSkillNumber(w);
      UpperSkillNumber(w);
      if NumberAt(lower, 0).Some? {
        assert NumberAt(lower, span.at) == Some(span.end);
      }
  }

  /** Upper-casing a skill number changes nothing. */
  lemma UpperSkillNumber(w: string)
    requires IsSkillNumber(w)
    ensures ToUpper(w) == w
  {
    forall i | 0 <= i < |w| ensures UpperChar(w[i]) == w[i] {
    }
  }

  /** A range `a.b-c.d` is reported as its first bound with the dash: `3.5-4.0` gives `3.5-`. */
  lemma DashRangeLevel(d: char, digits: string, rest: string)
    requires IsDigit(d) && |digits| > 0 && IsDigits(digits)
    requires var title := [d] + "." + digits + "-" + rest;
      forall j :: 0 <= j < |SkillKeywords| ==> !Contains(ToLower(title), SkillKeywords[j])
    ensures SkillLevel([d] + "." + digits + "-" + rest) == Some([d] + "." + digits + "-")
  {
    var title := [d] + "." + digits + "-" + rest;
    var n := [d] + "." + digits + "-";
    LeadingNumber(title, n, |n| - 1);
  }

  /** With spaces around the dash, `3.5 - 4.0` gives just `3.5`. */
  lemma SpacedRangeLevel(d: char, digits: string, rest: string)
    requires IsDigit(d) && |digits| > 0 && IsDigits(digits)
    requires var title := [d] + "." + digits + " " + rest;
      forall j :: 0 <= j < |SkillKeywords| ==> !Contains(ToLower(title), SkillKeywords[j])
    ensures SkillLevel([d] + "." + digits + " " + rest) == Some([d] + "." + digits)
  {
    var title := [d] + "." + digits + " " + rest;
    var n := [d] + "." + digits + " ";
    LeadingNumber(title, n, |n| - 1);
    assert n[..|n| - 1] == [d] + "." + digits;
  }

  /**
   * A keyword-free title that starts with `d.digits` followed by `tail[0]` at position `k`:
   * the level is that number, with `tail[0]` included when it is a sign.
   */
  lemma LeadingNumber(title: string, n: string, k: nat)
    requires 3 <= k < |n| <= |title| && title[..|n|] == n
    requires IsDigit(n[0]) && n[1] == '.' && (forall i :: 2 <= i < k ==> IsDigit(n[i])) && !IsDigit(n[k])
    requires n[k] == '-' || n[k] == ' '
    requires |n| == k + 1
    requires forall j :: 0 <= j < |SkillKeywords| ==> !Contains(ToLower(title), SkillKeywords[j])
    ensures SkillLevel(title) == Some(if n[k] == '-' then n else n[..k])
  {
    var lower := ToLower(title);
    assert !Contains(lower, SkillKeywords[0]) && !Contains(lower, SkillKeywords[1]);
    assert !Contains(lower, SkillKeywords[2]) && !Contains(lower, SkillKeywords[3]);
    forall i | 0 <= i < |n| ensures lower[i] == n[i] {
      assert title[i] == n[i];
    }
    assert DigitRunEnd(lower, 2) == k by {
      DigitRunIs(lower, 2, k);
    }
    var e := if n[k] == '-' then k + 1 else k;
    assert NumberAt(lower, 0) == Some(e);
    assert FirstNumber(lower, 0) == Some(Span(0, e));
    UpperSkillNumber(lower[0..e]);
    assert lower[0..e] == (if n[k] == '-' then n else n[..k]);
  }

  lemma DigitRunIs(s: string, p: nat, e: nat)
    requires p <= e < |s| && (forall i :: p <= i < e ==> IsDigit(s[i])) && !IsDigit(s[e])
    ensures DigitRunEnd(s, p) == e
    decreases e - p
  {
    if p < e {
      DigitRunIs(s, p + 1, e);
    }
  }
}
