/**
 * The page as the extraction pass sees it. Each `.planner-entry` element is reduced to the
 * values the pass reads from it: its text content, the text content of each of its
 * descendants in document order, the text content of the first element each selector the
 * pass queries finds in it, and its left edge on the page.
 */
module Collector {
  import opened Text

  /**
   * One `.planner-entry`. `text` is `""` where `textContent` is null; `found` maps a selector
   * to the text content of `entry.querySelector(selector)` and has no key where the query
   * finds nothing; `left` is `getBoundingClientRect().left`.
   */
  datatype RawEntry = RawEntry(text: string, descendants: seq<string>, found: map<string, string>, left: real)

  /** The filter's test: the lower-cased text contains `pickleball`. */
  predicate IsPickleball(e: RawEntry) {
    Contains(ToLower(e.text), "pickleball")
  }

  /** `allEntries.filter(...)`: the pickleball entries, in document order. */
  function PickleballEntries(entries: seq<RawEntry>): (r: seq<RawEntry>)
    ensures |r| <= |entries|
    ensures forall e :: e in r <==> e in entries && IsPickleball(e)
  {
    if |entries| == 0 then []
    else
      var last := entries[|entries| - 1];
      PickleballEntries(entries[..|entries| - 1]) + (if IsPickleball(last) then [last] else [])
  }

  /**
   * Filtering a page split in two filters each part and keeps the parts in order, so the
   * entries keep their document order.
   */
  lemma {:induction false} PickleballAppend(a: seq<RawEntry>, b: seq<RawEntry>)
    ensures PickleballEntries(a + b) == PickleballEntries(a) + PickleballEntries(b)
    decreases |b|
  {
    if |b| == 0 {
      assert a + b == a;
    } else {
      var b' := b[..|b| - 1];
      assert (a + b)[..|a + b| - 1] == a + b';
      PickleballAppend(a, b');
    }
  }

  /** A page of pickleball entries only is kept whole; one with none gives nothing. */
  lemma {:induction false} PickleballAll(entries: seq<RawEntry>)
    ensures (forall e :: e in entries ==> IsPickleball(e)) ==> PickleballEntries(entries) == entries
    ensures (forall e :: e in entries ==> !IsPickleball(e)) ==> PickleballEntries(entries) == []
    decreases |entries|
  {
    if |entries| > 0 {
      var init := entries[..|entries| - 1];
      assert forall e :: e in init ==> e in entries;
      PickleballAll(init);
      assert init + [entries[|entries| - 1]] == entries;
    }
  }

  /** Filtering twice is filtering once. */
  lemma {:induction false} PickleballIdempotent(entries: seq<RawEntry>)
    ensures PickleballEntries(PickleballEntries(entries)) == PickleballEntries(entries)
  {
    PickleballAll(PickleballEntries(entries));
  }
}
