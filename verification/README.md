# Life Time pickleball schedule scraper: the normalisation pass, in Dafny

`scrapeLifetimeSchedule` logs into the Life Time member site, opens next week's class
planner filtered to pickleball open play, reads the sessions off the page and writes a
schedule of seven days. This project models the part of it that turns the page into
`scheduleData.days`:

- **Extraction** (the `page.evaluate` callback). The `.planner-entry` elements whose text
  mentions pickleball are kept in document order. Each becomes a session:
  - the title and the location come from the first selector whose element has non-blank
    text, else a default;
  - the start and end times come from `parseTimeString`;
  - the skill level is read off the title, and the status off the status element;
  - the day is the planner column under the entry's left edge.
  
  Sessions are pushed into seven per-day lists, and each list is sorted stably by
  `getTimeValue` of the start time.
- **Day map.** Seven empty days keyed `NAME-date` are set up from Sunday on. Each is filled
  with its column's list, taken out in insertion order, and sorted by date and then
  weekday.
- **Gap fill.** When some days are empty and some day has sessions, every empty day
  receives a renumbered copy of the first non-empty day's sessions. In each copy:
  - the first occurrence of the template day's name in the title is replaced;
  - a `Based on NAME` subtitle is added.

The page reaches the model as values. Each entry (`Collector.RawEntry`) carries:

- its text content;
- the text contents of its descendants in document order;
- for each selector the pass queries, the text content of the first element found;
- its left edge.

The week (`Sessions.Week`) carries:

- the planner container, if the page has one;
- the day of the month of next Sunday and the length of that month.

The regular expressions of `parseTimeString` and `extractSkillLevel` are written out as
scanners. Each scanner matches at a given position. A search over positions gives the
leftmost match, as `match` does.

`Array.prototype.sort` is modelled by a stable insertion sort, `StableSort.SortBy`. Any
ascending order that keeps the order of equal keys is proved to equal it
(`StableSort.StableSortIsSortBy`), so the model agrees with every stable sort. The
language requires `sort` to be stable.

The JavaScript `Map` is a class (`Schedule.DayMap`) whose fields are its keys in insertion
order and its entries. The arrays the source sorts and fills in place are Dafny arrays.
`Scrape.ScrapeWeek` runs the whole pass and is proved equal to the specification function
`Scrape.ScheduleDays`. The lemmas of the `Scrape` module state what the schedule looks
like.

A title such as `3.5+ Advanced` gets the skill level `Advanced`, because the keywords are
checked before the numbers (`Attributes.KeywordBeatsNumber`).

Two quirks of the code are kept and stated as lemmas:

- In a range written with one trailing period, such as `11:30 to 12:30 PM`, that period is
  copied onto the start (`RangeFormats.MorningStartReadAsEvening`).
- A range written without spaces around its dash is passed over
  (`TimeFallbacks.TightRangeIgnored`).

## Model

| member | source | states |
|---|---|---|
| Collector.PickleballEntries | lifetime-scraper/scraper.js:308-311 | an entry is kept exactly when its lower-cased text contains `pickleball`; nothing is added |
| Collector.PickleballAppend | lifetime-scraper/scraper.js:308-311 | filtering a page split in two is filtering each part, in order, so document order is kept |
| Collector.PickleballAll | lifetime-scraper/scraper.js:308-311 | a page of pickleball entries only is kept whole; a page without any gives nothing |
| Collector.PickleballIdempotent | lifetime-scraper/scraper.js:308-311 | filtering twice is filtering once |
| Calendar.DaysUntilNextSunday | lifetime-scraper/scraper.js:32 | between 1 and 7 days, landing on a Sunday; a whole week when today is Sunday |
| Calendar.WeekdayAt | lifetime-scraper/scraper.js:38 | `weekdays[i]` is the weekday at position `i` |
| Calendar.NamePrefixDistinct | lifetime-scraper/scraper.js:38 | the weekday names differ already in their first two letters |
| Calendar.DateAfter | lifetime-scraper/scraper.js:297-301 | the day of the month `offset` days after the Sunday lies in 1..monthLength and is sunday + offset, or that less monthLength once it rolls into the next month |
| Calendar.WeekDatesDistinct | lifetime-scraper/scraper.js:56-62 | the seven days of the week have seven different dates |
| Calendar.DayOfWeek | lifetime-scraper/scraper.js:283-294 | the column is in 0..6, and 0 when there is no planner container |
| Calendar.DayOfWeekThreshold | lifetime-scraper/scraper.js:289-293 | the column is at least `k` exactly when the left edge is at least `k` column widths into the container |
| Calendar.DayOfWeekColumn | lifetime-scraper/scraper.js:289-293 | the column is `k` exactly when the left edge lies between the k-th and (k+1)-th boundaries, the outer columns unbounded |
| Calendar.DayOfWeekMonotone | lifetime-scraper/scraper.js:283-294 | an entry further right is never put on an earlier day |
| Calendar.FormatDateFields | lifetime-scraper/scraper.js:149-152 | for a four-digit year the text is `yyyy-mm-dd` and its fields read back as the year, the month counted from 1, and the day |
| Clock.ClockTextFields | lifetime-scraper/scraper.js:402-403 | splitting `H:MM P` at the space and the colon gives back the hour, the minutes and the period |
| Clock.TimeValueIsClockMinutes | lifetime-scraper/scraper.js:401-409 | on a 12-hour clock with `AM`/`PM` the key is minutes since midnight in 0..1439; 12 AM is the minutes alone and 12 PM adds 720 |
| Clock.TwelveHourAdjust | lifetime-scraper/scraper.js:405-406 | the two period adjustments amount to `hour % 12`, plus 12 for `PM` |
| Clock.OtherPeriodKeepsHours | lifetime-scraper/scraper.js:405-406 | a period other than exactly `AM` or `PM` (such as `pm`) leaves the hours as written |
| TimeParser.ClockAt | lifetime-scraper/scraper.js:194 | `(\d{1,2}):(\d{2})` at a position: the captures are one or two hour digits and two minute digits, and the text there is `hour:minute` |
| TimeParser.SharedAt | lifetime-scraper/scraper.js:193-210 | a match of a one-period format has valid captures starting with the clock at the position, and one period for both ends |
| TimeParser.SplitAt | lifetime-scraper/scraper.js:213-230 | a match of a two-period format has valid captures starting with the clock at the position |
| TimeParser.MatchAt | lifetime-scraper/scraper.js:192-230 | a match of a format starts with the start clock as written; a one-period format reports one period for both ends |
| TimeParser.FindFrom | lifetime-scraper/scraper.js:194 | `match` reports the leftmost match: no match starts earlier, and none at all when it reports none |
| TimeParser.FirstFormat | lifetime-scraper/scraper.js:192-230 | the formats are tried in order: the chosen one matches and every earlier one matches nowhere; none is chosen only when none matches |
| TimeParser.FirstRangeText | lifetime-scraper/scraper.js:183-189 | the descendant chosen holds a clock and `to` or `-`, and no earlier descendant does; there is none exactly when no descendant is range-like |
| TimeParser.DescendantRange | lifetime-scraper/scraper.js:183-230 | the captures of the range read from the first range-like descendant are valid clocks and periods |
| TimeParser.ClockTokens | lifetime-scraper/scraper.js:246 | every clock token has one or two hour digits and two minute digits |
| TimeParser.ClockTokensNext | lifetime-scraper/scraper.js:246 | the tokens from a position are the leftmost clock at or after it, then the tokens from the end of that match |
| TimeParser.ClockTokensNone | lifetime-scraper/scraper.js:246-247 | with no clock at or after a position there are no tokens from it |
| TimeParser.FirstTwoClocks | lifetime-scraper/scraper.js:246-254 | the first two tokens are the leftmost clock and the leftmost clock after the end of that match |
| TimeParser.PeriodTokens | lifetime-scraper/scraper.js:249-250 | every period token is upper-cased to `AM` or `PM` |
| TimeParser.PeriodTokensNext | lifetime-scraper/scraper.js:249-250 | the period tokens from a position are the leftmost `am`/`pm` at or after it, upper-cased, then the tokens from just after it |
| TimeParser.PeriodTokensNone | lifetime-scraper/scraper.js:249-250 | with no `am`/`pm` at or after a position there are no period tokens from it |
| TimeParser.RangeTimes | lifetime-scraper/scraper.js:196-199 | the times rendered from a range's captures are clock-shaped |
| TimeParser.TokenTimes | lifetime-scraper/scraper.js:245-256 | when the token step yields times, both are clock-shaped |
| TimeParser.ParseTimeString | lifetime-scraper/scraper.js:181-263 | the start time is a clock the sort can read, unless both labelled elements exist and their trimmed texts are returned |
| TimeParser.DefaultShaped | lifetime-scraper/scraper.js:258-262 | the default times `9:00 AM` and `10:30 AM` are clock-shaped |
| RangeFormats.SharedRoundTrip | lifetime-scraper/scraper.js:193-210 | a one-period format reads `H:MM SEP H:MM P`, with any non-empty whitespace runs between the parts, back as its digits with the period on both ends |
| RangeFormats.SplitRoundTrip | lifetime-scraper/scraper.js:213-230 | a two-period format reads `H:MM P SEP H:MM P`, with any non-empty whitespace runs between the parts, back as its digits and both periods |
| RangeFormats.SeparatorNeedsSpace | lifetime-scraper/scraper.js:194-224 | no format matches anywhere in a text where no `t` or `-` follows whitespace |
| RangeFormats.SharedSelected | lifetime-scraper/scraper.js:192-210 | a one-period layout, whatever its whitespace runs, is chosen by the one-period format with its own separator, at the start of the text |
| RangeFormats.SplitSelected | lifetime-scraper/scraper.js:192-230 | a two-period layout, whatever its whitespace runs, is chosen by the two-period format with its own separator; both one-period formats miss it |
| RangeFormats.SharedTextParses | lifetime-scraper/scraper.js:183-210 | an entry whose first range-like descendant, trimmed, is a one-period layout (any whitespace runs, any other descendants) gets `H:MM P` for both ends, whatever its labels and text |
| RangeFormats.SharedToInText | lifetime-scraper/scraper.js:183-199 | a `to` layout inside longer text, after a prefix without digits, is still read by the first format with its own captures |
| RangeFormats.SplitTextParses | lifetime-scraper/scraper.js:183-230 | an entry whose first range-like descendant, trimmed, is a two-period layout (any whitespace runs, any other descendants) keeps each end's own period |
| RangeFormats.MorningStartReadAsEvening | lifetime-scraper/scraper.js:192-199 | `h:mm SEP 12:mm PM` with `h` below 12 gives a start in the evening whose sort key is later than the end's |
| RangeFormats.LowerCasePeriodKept | lifetime-scraper/scraper.js:194-199 | a lower-case period is kept as written, and the sort key then takes the hours as written |
| TimeFallbacks.UnspacedNoFormat | lifetime-scraper/scraper.js:192-230 | when no `t` or `-` follows whitespace, none of the four formats matches |
| TimeFallbacks.TightRangeIgnored | lifetime-scraper/scraper.js:183-242 | a descendant reading `H:MM-H:MM P` changes nothing: the entry is timed as if it had no such descendant |
| TimeFallbacks.NoClockNoTokens | lifetime-scraper/scraper.js:246 | a text without a clock has no clock tokens |
| TimeFallbacks.NoClockNoRange | lifetime-scraper/scraper.js:183-186 | descendants without a clock give no range-like descendant |
| TimeFallbacks.DefaultWhenNoClock | lifetime-scraper/scraper.js:258-262 | with no clock anywhere and not both labels, the times are `9:00 AM` to `10:30 AM` |
| TimeFallbacks.SingleClockDefault | lifetime-scraper/scraper.js:246-262 | with no range read, not both labels and exactly one clock in the text, there is one clock token and the times are still `9:00 AM` to `10:30 AM` |
| TimeFallbacks.LabelsBeforeTokens | lifetime-scraper/scraper.js:233-242 | without a range, the trimmed texts of the labelled start and end elements win over any clock in the text |
| TimeFallbacks.TokenFallback | lifetime-scraper/scraper.js:245-256 | the token fallback uses the first two clocks, with the first period or `AM`, and the second period, else the first, else `AM` |
| Attributes.TrimEmpty | lifetime-scraper/scraper.js:334-335 | `trim()` leaves nothing exactly when the text is all whitespace |
| Attributes.FirstUsable | lifetime-scraper/scraper.js:331-340 | the selector chosen finds non-blank text and every earlier one does not; none is chosen only when no selector does |
| Attributes.SelectText | lifetime-scraper/scraper.js:331-340 | the selector loop stops at the first element with non-blank trimmed text and otherwise keeps the default |
| Attributes.ChosenIsFoundOrDefault | lifetime-scraper/scraper.js:320-340 | the title (or location) is either the default, with no usable selector, or the non-empty trimmed text of an element one selector found |
| Attributes.ChosenIgnoresLater | lifetime-scraper/scraper.js:346-364 | selectors after the first usable one make no difference |
| Attributes.StatusOf | lifetime-scraper/scraper.js:370-379 | `Waitlist` exactly when the trimmed lower-cased text contains `waitlist`; `Reserve` exactly when it does not but contains `reserve` or `book`; otherwise none |
| Attributes.NumberAt | lifetime-scraper/scraper.js:276 | a match of `\d\.\d+[+-]?` is a digit, a dot, digits and at most one sign |
| Attributes.FirstNumber | lifetime-scraper/scraper.js:276-277 | the first skill number is the leftmost; none is reported only when none occurs |
| Attributes.SkillLevel | lifetime-scraper/scraper.js:266-280 | a skill level, when there is one, is not empty |
| Attributes.KeywordBeatsNumber | lifetime-scraper/scraper.js:270-274 | the level is the label of the first keyword that occurs, whatever numbers the title holds |
| Attributes.NumericLevel | lifetime-scraper/scraper.js:276-279 | without keywords the level is the leftmost skill number, unchanged by upper-casing, and there is none exactly when the title holds no skill number |
| Attributes.UpperSkillNumber | lifetime-scraper/scraper.js:277 | upper-casing a skill number changes nothing |
| Attributes.DashRangeLevel | lifetime-scraper/scraper.js:276-277 | a title starting `a.b-…` is given the level `a.b-` |
| Attributes.SpacedRangeLevel | lifetime-scraper/scraper.js:276-277 | a title starting `a.b …` is given the level `a.b` |
| Attributes.Subtitle | lifetime-scraper/scraper.js:391 | there is a subtitle exactly when there is a skill level, and it is `Skill Level: ` followed by the level |
| Sessions.Week.DateOf | lifetime-scraper/scraper.js:297-301 | the date of a column is a day of the month |
| Sessions.LowerNameInjective | lifetime-scraper/scraper.js:387 | lower-casing keeps the weekday names apart |
| Sessions.SessionIdInjective | lifetime-scraper/scraper.js:387 | a session id determines its weekday, date and index |
| Sessions.DayOf | lifetime-scraper/scraper.js:382 | an entry's column is in 0..6 |
| Sessions.Columns | lifetime-scraper/scraper.js:382 | the columns of the filtered entries, one per entry |
| Sessions.Built | lifetime-scraper/scraper.js:318-394 | the sessions of the filtered entries, each numbered by its position in the filtered list |
| Sessions.BuildSession | lifetime-scraper/scraper.js:318-394 | one pass of the `forEach` builds the session the specification gives for the entry and its index |
| Sessions.PlaceSessions | lifetime-scraper/scraper.js:315-395 | after the pushes, each day's list holds the sessions of that column's entries in document order |
| Sessions.SortSessions | lifetime-scraper/scraper.js:399-412 | the comparator sort gives the stable sort of the list by the key |
| Sessions.SortEachDay | lifetime-scraper/scraper.js:398-413 | each of the seven lists is replaced by its stable sort, in place |
| Sessions.ExtractWeek | lifetime-scraper/scraper.js:179-416 | the callback returns seven lists, each the stable sort by start time of its column's pickleball sessions |
| Sessions.SelectHas | lifetime-scraper/scraper.js:386 | an element is placed in the list of its own column |
| Sessions.SelectOnly | lifetime-scraper/scraper.js:386 | a column's list holds only elements of that column |
| Sessions.SelectSizes | lifetime-scraper/scraper.js:386 | over seven columns the lists together are as long as the input |
| Sessions.BucketHas | lifetime-scraper/scraper.js:386-394 | every pickleball entry's session, with its own index, is in the list of its column |
| Sessions.BucketOnly | lifetime-scraper/scraper.js:386-394 | a day's list holds only sessions of entries in that column |
| Sessions.BucketSizes | lifetime-scraper/scraper.js:386-394 | the seven lists together hold one session per pickleball entry |
| Sessions.ExtractedDay | lifetime-scraper/scraper.js:398-413 | each sorted day is ascending by start time, a permutation of that day's sessions, and keeps document order among equal start times |
| Sessions.StartKeyMinutes | lifetime-scraper/scraper.js:401-411 | on a 12-hour clock start time the sort key is its minutes since midnight, in 0..1439 |
| StableSort.SortByCorrect | lifetime-scraper/scraper.js:399-412 | the stable sort is ascending, a permutation, and keeps the order of equal keys |
| StableSort.StableSortIsSortBy | lifetime-scraper/scraper.js:438-456 | any ascending arrangement that keeps the order of equal keys is the stable sort |
| StableSort.InsertInto | lifetime-scraper/scraper.js:399 | one insertion step puts `a[i]` after the elements of `a[..i]` with keys no larger, leaving the rest |
| StableSort.InsertionSort | lifetime-scraper/scraper.js:438 | sorting in place leaves the stable sort of the old contents |
| Schedule.DayKeyDistinct | lifetime-scraper/scraper.js:62-64 | different weekdays have different keys whatever their dates |
| Schedule.SkeletonDay | lifetime-scraper/scraper.js:64-70 | the skeleton day of column `i` is weekday `i`, without sessions, not highlighted |
| Schedule.Filled | lifetime-scraper/scraper.js:419-435 | the filled week has seven days |
| Schedule.DayMap.constructor | lifetime-scraper/scraper.js:53 | a new map is empty |
| Schedule.DayMap.Set | lifetime-scraper/scraper.js:64 | `set` stores the day; a new key goes last and an existing one keeps its place |
| Schedule.DayMap.Get | lifetime-scraper/scraper.js:427 | `get` finds the day exactly when the key is present |
| Schedule.DayMap.Values | lifetime-scraper/scraper.js:435 | `values()` yields, for each key in insertion order, the day stored under it |
| Schedule.BuildDayMap | lifetime-scraper/scraper.js:56-71 | the map holds the seven distinct keys `NAME-date` from Sunday on, each with its skeleton day |
| Schedule.Fill | lifetime-scraper/scraper.js:419-432 | every day of the map gets its column's list and keeps everything else; the keys and their order are unchanged |
| Schedule.DayOrderKeyCompares | lifetime-scraper/scraper.js:438-456 | the sort key orders days by date and then by weekday, as the comparator does, and is equal only for equal date and weekday |
| Schedule.SortDays | lifetime-scraper/scraper.js:438-456 | sorting in place leaves the stable sort of the old days by that key |
| Schedule.SwapBlocksRuns | lifetime-scraper/scraper.js:438-456 | swapping two blocks without a common key keeps the order within every key |
| Schedule.WeekOrder | lifetime-scraper/scraper.js:438-456 | the sort keeps column order, except that when the week runs into the next month its days come first; the dates ascend strictly |
| GapFill.TemplateIndex | lifetime-scraper/scraper.js:471 | `find` gives the first day with sessions, and none exactly when every day is empty |
| GapFill.EmptyDays | lifetime-scraper/scraper.js:462 | the empty days are exactly the days without sessions, in order |
| GapFill.Copies | lifetime-scraper/scraper.js:481-496 | the copy has as many sessions as the template |
| GapFill.CopySessions | lifetime-scraper/scraper.js:481-496 | the `map` callback copies each template session in order |
| GapFill.FindEmptyDays | lifetime-scraper/scraper.js:462 | the `filter` gives the indices of the empty days |
| GapFill.FindTemplate | lifetime-scraper/scraper.js:471 | the search finds the first day with sessions |
| GapFill.NoEmptyDays | lifetime-scraper/scraper.js:462-465 | without empty days the gap fill changes nothing |
| GapFill.FillGaps | lifetime-scraper/scraper.js:462-498 | the days in place become the gap-filled days |
| GapFill.CopyIntoEmptyDays | lifetime-scraper/scraper.js:477-496 | each empty day, and only those, receives the copies of the template day's sessions |
| GapFill.GapFillKeeps | lifetime-scraper/scraper.js:465-498 | every day keeps its name, date, header and highlight; days with sessions are unchanged; with every day empty nothing changes |
| GapFill.GapFillFills | lifetime-scraper/scraper.js:471-496 | when some day has sessions every day has sessions afterwards, each formerly empty day holding the copies of the first such day's |
| GapFill.CopyFields | lifetime-scraper/scraper.js:481-495 | a copy keeps the times, location and status, is renumbered for the new day by its position, and gets the `Based on` subtitle |
| GapFill.CopyTitle | lifetime-scraper/scraper.js:486-487 | only the first occurrence of the template day's name in the title is replaced; a title without it is kept |
| GapFill.BasedOnNames | lifetime-scraper/scraper.js:491-493 | a non-empty subtitle is kept and followed by ` (Based on NAME)`; otherwise the subtitle is `Based on NAME` |
| Scrape.WeekLists | lifetime-scraper/scraper.js:179-416 | the page returns seven lists |
| Scrape.ScheduleDays | lifetime-scraper/scraper.js:419-499 | the schedule has seven days |
| Scrape.ScrapeWeek | lifetime-scraper/scraper.js:179-499 | extraction, day map, fill, day sort and gap fill together give `ScheduleDays` |
| Scrape.Arranged | lifetime-scraper/scraper.js:435-498 | whatever the seven lists, the arranged week has seven days |
| Scrape.Column | lifetime-scraper/scraper.js:438-456 | the column shown at each position of the sorted week |
| Scrape.SortedPositions | lifetime-scraper/scraper.js:438-456 | the day sort moves each column to its computed position |
| Scrape.ArrangedDates | lifetime-scraper/scraper.js:438-498 | the dates of the days ascend strictly |
| Scrape.ArrangedDay | lifetime-scraper/scraper.js:56-71 | each column ends up with its weekday, its date, its `NAME date` header and no highlight |
| Scrape.ArrangedSessions | lifetime-scraper/scraper.js:462-498 | every day has sessions when some list has one, and every day is empty when all lists are |
| Scrape.ArrangedKeepsOwn | lifetime-scraper/scraper.js:419-498 | a column with sessions of its own keeps exactly them |
| Scrape.ArrangedWeekdays | lifetime-scraper/scraper.js:438-456 | each weekday sits at the position the day sort gives its column, every day carries its own weekday's date, and no weekday appears twice |
| Scrape.ArrangedHeaders | lifetime-scraper/scraper.js:56-71 | every arranged day keeps its `NAME date` header and no highlight |
| Scrape.ScheduleShape | lifetime-scraper/scraper.js:419-498 | seven days in ascending date order, each weekday once at its column's sorted position and with its own date, each with its header and not highlighted |
| Scrape.WeekListsEmpty | lifetime-scraper/scraper.js:308-413 | all seven lists are empty exactly when the page has no pickleball entry |
| Scrape.ScheduleEmptyIff | lifetime-scraper/scraper.js:462-498 | every day has sessions exactly when the page has a pickleball entry, and every day is empty exactly when it has none |
| Scrape.OwnSessionsKept | lifetime-scraper/scraper.js:386-498 | a weekday whose column has pickleball entries shows exactly their sessions, sorted by start time, at its column's sorted position |

## Left out

- **The browser session.** This covers launching the browser, logging in, navigating,
  waiting for the planner and closing the browser. The page reaches the model as
  `RawEntry` values and a `Week`.
- **Writing the output.** This covers writing `schedule-data.json`, posting it to the API,
  reading the environment and exiting the process.
- **The clock and the time zone.** `today`, `nextSunday` and the `Date` arithmetic become
  parameters: the weekday of today, the day of next Sunday and the length of its month.
  The month name, `_source` and `_debug` fields of `scheduleData` are not modelled. The ISO
  round trip of `nextSunday` into the page is not modelled either: the page is assumed to
  see the same Sunday.
- **Console logging**, throughout.
- **Regular expressions in general.** Only the patterns the pass uses are modelled, each
  by its own scanner.
- **Non-ASCII case folding.** `toLowerCase` and `toUpperCase` are modelled on the ASCII
  letters only. `trim` and `\s` use JavaScript's full whitespace set.
- **Layout numbers.** They are modelled as exact reals, not floating point. A container of
  width 0 is excluded by `Week.Valid`. In JavaScript the division by a zero column width
  gives an infinity, which `Math.min`/`Math.max` clamp to column 0 or 6, except for an entry
  at exactly the container's left edge: there it gives `NaN`, and `sessionsByDay[NaN].push`
  throws.
- **The `if (day)` test of the fill.** It always succeeds, because the seven keys of the
  map are exactly the keys the fill computes (`Schedule.BuildDayMap`). The model's
  `Schedule.Fill` still looks the key up.
- **`$` patterns in `replace`.** They are not modelled, because the replacement is a
  weekday name and holds no `$`.
- Sessions.StartKey: a start time that is not `digits:digits`, optionally followed by a
  space and a period, gets the key 0. This is weaker than the source, where `Number` reads
  such a text as `NaN` or as an oddly split number. Such a start time can only come from a
  labelled start element, since every other path of `parseTimeString` yields a clock
  (`TimeParser.ParseTimeString`). On `NaN` the source's comparator has no defined order.
- RangeFormats.SharedTextParses, RangeFormats.SplitTextParses: the trimmed descendant is
  the layout alone. A layout inside longer text is covered only for the `to` format after
  a prefix without digits (`RangeFormats.SharedToInText`). In other surroundings an
  earlier format can match a different part of the text, so no general statement is made.
