/**
 * `Array.prototype.sort` with a numeric comparator `(a, b) => key(a) - key(b)`, which the
 * language guarantees to be stable: the result is the permutation of the input that is
 * ascending by `key` and keeps the input order among elements with equal keys.
 * The model sorts in place by insertion, and proves that the outcome is the only
 * sequence with those properties, so it agrees with any stable sort.
 */
module StableSort {

  predicate Sorted<T>(s: seq<T>, key: T -> int) {
    forall i, j :: 0 <= i < j < |s| ==> key(s[i]) <= key(s[j])
  }

  /** The elements of `s` whose key is `v`, in their order in `s`. */
  function WithKey<T>(s: seq<T>, key: T -> int, v: int): seq<T> {
    if |s| == 0 then []
    else WithKey(s[..|s| - 1], key, v) + (if key(s[|s| - 1]) == v then [s[|s| - 1]] else [])
  }

  /** `r` holds the same elements as `s` and, for every key, in the same relative order. */
  ghost predicate SameRuns<T>(r: seq<T>, s: seq<T>, key: T -> int) {
    forall v :: WithKey(r, key, v) == WithKey(s, key, v)
  }

  /** Stable insertion: `x` goes after every element whose key is at most `key(x)`. */
  function Insert<T>(t: seq<T>, x: T, key: T -> int): seq<T> {
    if |t| == 0 || key(t[|t| - 1]) <= key(x) then t + [x]
    else Insert(t[..|t| - 1], x, key) + [t[|t| - 1]]
  }

  /** The stable sort of `s` by `key`, as insertion sort. */
  function SortBy<T>(s: seq<T>, key: T -> int): seq<T> {
    if |s| == 0 then [] else Insert(SortBy(s[..|s| - 1], key), s[|s| - 1], key)
  }

  lemma {:induction false} WithKeyAppend<T>(a: seq<T>, b: seq<T>, key: T -> int, v: int)
    ensures WithKey(a + b, key, v) == WithKey(a, key, v) + WithKey(b, key, v)
    decreases |b|
  {
    if |b| == 0 {
      assert a + b == a;
    } else {
      var b' := b[..|b| - 1];
      assert (a + b)[..|a + b| - 1] == a + b';
      WithKeyAppend(a, b', key, v);
    }
  }

  lemma {:induction false} WithKeyNonEmpty<T>(s: seq<T>, key: T -> int, i: nat)
    requires i < |s|
    ensures WithKey(s, key, key(s[i])) != []
    decreases |s|
  {
    if i < |s| - 1 {
      WithKeyNonEmpty(s[..|s| - 1], key, i);
    }
  }

  lemma {:induction false} WithKeyMember<T>(s: seq<T>, key: T -> int, v: int, x: T)
    requires x in WithKey(s, key, v)
    ensures x in s && key(x) == v
    decreases |s|
  {
    if |s| > 0 {
      if x in WithKey(s[..|s| - 1], key, v) {
        WithKeyMember(s[..|s| - 1], key, v, x);
      }
    }
  }

  /** Insertion places `x` just after the last element whose key is not above `key(x)`. */
  lemma {:induction false} InsertAt<T>(t: seq<T>, x: T, key: T -> int, j: nat)
    requires j <= |t|
    requires j == 0 || key(t[j - 1]) <= key(x)
    requires forall k :: j <= k < |t| ==> key(t[k]) > key(x)
    ensures Insert(t, x, key) == t[..j] + [x] + t[j..]
    decreases |t|
  {
    if j < |t| {
      var t' := t[..|t| - 1];
      InsertAt(t', x, key, j);
      assert t'[..j] == t[..j];
      assert t'[j..] + [t[|t| - 1]] == t[j..];
    } else {
      assert t[..j] == t;
    }
  }

  lemma {:induction false} InsertPermutes<T>(t: seq<T>, x: T, key: T -> int)
    ensures |Insert(t, x, key)| == |t| + 1
    ensures multiset(Insert(t, x, key)) == multiset(t) + multiset{x}
    decreases |t|
  {
    if |t| > 0 && key(t[|t| - 1]) > key(x) {
      var t' := t[..|t| - 1];
      InsertPermutes(t', x, key);
      assert t == t' + [t[|t| - 1]];
    }
  }

  lemma {:induction false} InsertSorted<T>(t: seq<T>, x: T, key: T -> int)
    requires Sorted(t, key)
    ensures Sorted(Insert(t, x, key), key)
    decreases |t|
  {
    if |t| > 0 && key(t[|t| - 1]) > key(x) {
      var t', last := t[..|t| - 1], t[|t| - 1];
      InsertSorted(t', x, key);
      InsertPermutes(t', x, key);
      var r' := Insert(t', x, key);
      forall i | 0 <= i < |r'| ensures key(r'[i]) <= key(last) {
        assert r'[i] in multiset(r');
        if r'[i] != x {
          assert r'[i] in multiset(t');
          var k :| 0 <= k < |t'| && t'[k] == r'[i];
          assert t[k] == r'[i];
        }
      }
      assert Insert(t, x, key) == r' + [last];
    }
  }

  lemma {:induction false} InsertRuns<T>(t: seq<T>, x: T, key: T -> int, v: int)
    ensures WithKey(Insert(t, x, key), key, v) == WithKey(t + [x], key, v)
    decreases |t|
  {
    if |t| > 0 && key(t[|t| - 1]) > key(x) {
      var t', last := t[..|t| - 1], t[|t| - 1];
      InsertRuns(t', x, key, v);
      WithKeyAppend(Insert(t', x, key), [last], key, v);
      WithKeyAppend(t', [x], key, v);
      WithKeyAppend(t', [last], key, v);
      WithKeyAppend(t' + [last], [x], key, v);
      assert t == t' + [last];
      assert WithKey([last], key, v) == [] || WithKey([x], key, v) == [] by {
        assert [last][..0] == [] && [x][..0] == [];
      }
    }
  }

  /** The sorted sequence is ascending, a permutation of the input, and stable. */
  lemma {:induction false} SortByCorrect<T>(s: seq<T>, key: T -> int)
    ensures |SortBy(s, key)| == |s|
    ensures Sorted(SortBy(s, key), key)
    ensures multiset(SortBy(s, key)) == multiset(s)
    ensures SameRuns(SortBy(s, key), s, key)
    decreases |s|
  {
    if |s| > 0 {
      var s', x := s[..|s| - 1], s[|s| - 1];
      SortByCorrect(s', key);
      InsertSorted(SortBy(s', key), x, key);
      InsertPermutes(SortBy(s', key), x, key);
      assert s == s' + [x];
      forall v ensures WithKey(SortBy(s, key), key, v) == WithKey(s, key, v) {
        InsertRuns(SortBy(s', key), x, key, v);
        WithKeyAppend(SortBy(s', key), [x], key, v);
        WithKeyAppend(s', [x], key, v);
      }
    }
  }

  /** In two ascending sequences with the same runs, the last elements coincide. */
  lemma LastAgree<T>(r: seq<T>, t: seq<T>, key: T -> int)
    requires Sorted(r, key) && Sorted(t, key)
    requires SameRuns(r, t, key)
    requires |r| > 0 && |t| > 0
    ensures r[|r| - 1] == t[|t| - 1]
  {
    var x, y := r[|r| - 1], t[|t| - 1];
    // The largest keys agree: each last element's key occurs in the other sequence.
    WithKeyNonEmpty(r, key, |r| - 1);
    var wx := WithKey(t, key, key(x));
    WithKeyMember(t, key, key(x), wx[0]);
    WithKeyNonEmpty(t, key, |t| - 1);
    var wy := WithKey(r, key, key(y));
    WithKeyMember(r, key, key(y), wy[0]);
    assert key(x) == key(y);
    // Both runs of that key end with the last element.
    var rx, tx := WithKey(r, key, key(x)), WithKey(t, key, key(x));
    assert rx == WithKey(r[..|r| - 1], key, key(x)) + [x];
    assert tx == WithKey(t[..|t| - 1], key, key(x)) + [y];
    assert rx[|rx| - 1] == x && tx[|tx| - 1] == y;
  }

  /** Dropping the same last element from both keeps the runs equal. */
  lemma DropLastRuns<T>(r: seq<T>, t: seq<T>, key: T -> int)
    requires SameRuns(r, t, key)
    requires |r| > 0 && |t| > 0 && r[|r| - 1] == t[|t| - 1]
    ensures SameRuns(r[..|r| - 1], t[..|t| - 1], key)
  {
    var x, r', t' := r[|r| - 1], r[..|r| - 1], t[..|t| - 1];
    forall v ensures WithKey(r', key, v) == WithKey(t', key, v) {
      var tail := if key(x) == v then [x] else [];
      var ra, ta := WithKey(r', key, v), WithKey(t', key, v);
      assert WithKey(r, key, v) == WithKey(t, key, v);
      assert WithKey(r, key, v) == ra + tail;
      assert WithKey(t, key, v) == ta + tail;
      assert ra == (ra + tail)[..|ra|] && ta == (ta + tail)[..|ta|];
    }
  }

  /** Two ascending sequences with the same elements in the same per-key order are equal. */
  lemma {:induction false} SortedRunsUnique<T>(r: seq<T>, t: seq<T>, key: T -> int)
    requires Sorted(r, key) && Sorted(t, key)
    requires SameRuns(r, t, key)
    ensures r == t
    decreases |r| + |t|
  {
    if |r| == 0 || |t| == 0 {
      // When exactly one of them is empty, the run of the other's last key tells them apart.
      if |r| > 0 {
        WithKeyNonEmpty(r, key, |r| - 1);
      } else if |t| > 0 {
        WithKeyNonEmpty(t, key, |t| - 1);
      }
    } else {
      var r', t' := r[..|r| - 1], t[..|t| - 1];
      LastAgree(r, t, key);
      DropLastRuns(r, t, key);
      SortedPrefix(r, key);
      SortedPrefix(t, key);
      SortedRunsUnique(r', t', key);
      assert r == r' + [r[|r| - 1]];
      assert t == t' + [t[|t| - 1]];
    }
  }

  /** Dropping the last element keeps a sequence ascending. */
  lemma SortedPrefix<T>(s: seq<T>, key: T -> int)
    requires Sorted(s, key) && |s| > 0
    ensures Sorted(s[..|s| - 1], key)
  {
  }

  /** Every stable sort of `s` by `key` is `SortBy(s, key)`. */
  lemma StableSortIsSortBy<T>(s: seq<T>, r: seq<T>, key: T -> int)
    requires Sorted(r, key) && SameRuns(r, s, key)
    ensures r == SortBy(s, key)
  {
    SortByCorrect(s, key);
    SortedRunsUnique(r, SortBy(s, key), key);
  }

  /** Moves `a[i]` left past the larger-keyed elements of `a[..i]`: one insertion step. */
  method InsertInto<T>(a: array<T>, i: nat, key: T -> int)
    requires i < a.Length
    modifies a
    ensures a[..i + 1] == Insert(old(a[..i]), old(a[i]), key)
    ensures a[i + 1..] == old(a[i + 1..])
  {
    ghost var sorted := a[..i];
    var x := a[i];
    var j := i;
    while j > 0 && key(a[j - 1]) > key(x)
      invariant 0 <= j <= i
      invariant forall k :: 0 <= k < j ==> a[k] == sorted[k]
      invariant forall k :: j < k <= i ==> a[k] == sorted[k - 1]
      invariant forall k :: i < k < a.Length ==> a[k] == old(a[k])
      invariant forall k :: j <= k < i ==> key(sorted[k]) > key(x)
    {
      a[j] := a[j - 1];
      j := j - 1;
    }
    a[j] := x;
    InsertAt(sorted, x, key, j);
    assert a[..i + 1] == sorted[..j] + [x] + sorted[j..];
  }

  /** Sorts `a` in place, stably and ascending by `key`. */
  method InsertionSort<T>(a: array<T>, key: T -> int)
    modifies a
    ensures a[..] == SortBy(old(a[..]), key)
  {
    ghost var s := a[..];
    var i := 0;
    while i < a.Length
      invariant 0 <= i <= a.Length
      invariant a[..i] == SortBy(s[..i], key)
      invariant a[i..] == s[i..]
    {
      InsertInto(a, i, key);
      assert s[..i + 1][..i] == s[..i];
      i := i + 1;
    }
    assert s[..a.Length] == s;
  }
}
