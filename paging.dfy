/** The shape of a result page, independent of what the rows are: keep the
    rows a predicate admits, order them by a key, highest first, skip
    `offset` of them and keep at most `limit`. This is what a SQL
    `WHERE … ORDER BY key DESC LIMIT $l OFFSET $o` returns. */
module Paging {

  function Min(a: int, b: int): int {
    if a <= b then a else b
  }

  /** The elements of `s` that satisfy `p`, in their order in `s`. */
  function Filter<T(!new)>(s: seq<T>, p: T -> bool): (r: seq<T>)
    ensures |r| <= |s|
    ensures forall x :: x in r <==> x in s && p(x)
    ensures multiset(r) <= multiset(s)
    decreases |s|
  {
    if |s| == 0 then []
    else
      assert s == [s[0]] + s[1..];
      (if p(s[0]) then [s[0]] else []) + Filter(s[1..], p)
  }

  /** Filtering keeps every occurrence of an element that satisfies `p`
      and none of one that does not. */
  lemma {:induction false} FilterMultiplicity<T(!new)>(s: seq<T>, p: T -> bool)
    ensures forall x :: multiset(Filter(s, p))[x] == if p(x) then multiset(s)[x] else 0
    decreases |s|
  {
    if |s| > 0 {
      FilterMultiplicity(s[1..], p);
      assert s == [s[0]] + s[1..];
    }
  }

  /** Filtering keeps the order of the elements: filtering two pieces and
      joining the results is filtering the whole. */
  lemma {:induction false} FilterConcat<T(!new)>(s: seq<T>, t: seq<T>, p: T -> bool)
    ensures Filter(s + t, p) == Filter(s, p) + Filter(t, p)
    decreases |s|
  {
    if |s| > 0 {
      var u := s + t;
      var head := if p(s[0]) then [s[0]] else [];
      assert u[0] == s[0] && u[1..] == s[1..] + t;
      assert Filter(u, p) == head + Filter(u[1..], p);
      assert Filter(s, p) == head + Filter(s[1..], p);
      FilterConcat(s[1..], t, p);
      assert head + (Filter(s[1..], p) + Filter(t, p)) == (head + Filter(s[1..], p)) + Filter(t, p);
    } else {
      assert s + t == t;
    }
  }

  /** Two predicates that agree on the elements of `s` keep the same rows. */
  lemma {:induction false} FilterCongruent<T(!new)>(s: seq<T>, p: T -> bool, q: T -> bool)
    requires forall x :: x in s ==> p(x) == q(x)
    ensures Filter(s, p) == Filter(s, q)
    decreases |s|
  {
    if |s| > 0 {
      FilterCongruent(s[1..], p, q);
    }
  }

  /** `s` is ordered by `key`, highest first (ties in any order). */
  ghost predicate NonIncreasing<T>(s: seq<T>, key: T -> real) {
    forall i, j :: 0 <= i < j < |s| ==> key(s[i]) >= key(s[j])
  }

  /** Inserts `x` before the first element of `s` whose key is not
      higher than that of `x`. */
  function Insert<T>(x: T, s: seq<T>, key: T -> real): (r: seq<T>)
    ensures |r| == |s| + 1
    ensures multiset(r) == multiset(s) + multiset{x}
    ensures forall y :: y in r ==> y == x || y in s
    decreases |s|
  {
    if |s| == 0 || key(x) >= key(s[0]) then [x] + s
    else
      assert s == [s[0]] + s[1..];
      [s[0]] + Insert(x, s[1..], key)
  }

  /** Inserting into a sequence ordered highest-first keeps it ordered. */
  lemma {:induction false} InsertOrdered<T>(x: T, s: seq<T>, key: T -> real)
    requires NonIncreasing(s, key)
    ensures NonIncreasing(Insert(x, s, key), key)
    decreases |s|
  {
    if |s| > 0 && key(x) < key(s[0]) {
      InsertOrdered(x, s[1..], key);
      var rest := Insert(x, s[1..], key);
      forall j | 0 <= j < |rest|
        ensures key(rest[j]) <= key(s[0])
      {
        assert rest[j] in rest;
      }
    }
  }

  /** Insertion sort, highest key first: a permutation of `s` that is
      ordered by `key`. The order among equal keys is the model's choice;
      no property below depends on it. */
  function SortDesc<T>(s: seq<T>, key: T -> real): (r: seq<T>)
    ensures |r| == |s|
    ensures multiset(r) == multiset(s)
    ensures NonIncreasing(r, key)
    decreases |s|
  {
    if |s| == 0 then []
    else
      assert s == [s[0]] + s[1..];
      var sorted := SortDesc(s[1..], key);
      InsertOrdered(s[0], sorted, key);
      Insert(s[0], sorted, key)
  }

  /** Keys that agree on the elements of `s` sort `s` the same way. */
  lemma {:induction false} SortCongruent<T>(s: seq<T>, k1: T -> real, k2: T -> real)
    requires forall x :: x in s ==> k1(x) == k2(x)
    ensures SortDesc(s, k1) == SortDesc(s, k2)
    decreases |s|
  {
    if |s| > 0 {
      SortCongruent(s[1..], k1, k2);
      var t := SortDesc(s[1..], k1);
      assert forall x :: x in t ==> x in multiset(s[1..]);
      InsertCongruent(s[0], t, k1, k2);
    }
  }

  lemma {:induction false} InsertCongruent<T>(x: T, s: seq<T>, k1: T -> real, k2: T -> real)
    requires k1(x) == k2(x)
    requires forall y :: y in s ==> k1(y) == k2(y)
    ensures Insert(x, s, k1) == Insert(x, s, k2)
    decreases |s|
  {
    if |s| > 0 {
      assert s[0] in s;
      InsertCongruent(x, s[1..], k1, k2);
    }
  }

  /** `LIMIT limit OFFSET offset`: the run of `s` that starts at `offset`
      and has `limit` elements, or fewer when `s` ends first. */
  function Window<T>(s: seq<T>, offset: nat, limit: nat): (r: seq<T>)
    ensures |r| == if offset >= |s| then 0 else Min(limit, |s| - offset)
    ensures forall i :: 0 <= i < |r| ==> r[i] == s[offset + i]
  {
    if offset >= |s| then [] else s[offset..][..Min(limit, |s| - offset)]
  }

  /** The elements of a window come from the sequence it is taken from. */
  lemma WindowSubMultiset<T>(s: seq<T>, offset: nat, limit: nat)
    ensures multiset(Window(s, offset, limit)) <= multiset(s)
  {
    if offset < |s| {
      var n := Min(limit, |s| - offset);
      assert Window(s, offset, limit) == s[offset..offset + n];
      assert s == s[..offset] + s[offset..offset + n] + s[offset + n..];
    }
  }

  /** A window of an ordered sequence is ordered. */
  lemma WindowNonIncreasing<T>(s: seq<T>, key: T -> real, offset: nat, limit: nat)
    requires NonIncreasing(s, key)
    ensures NonIncreasing(Window(s, offset, limit), key)
  {
  }

  /** The page of `s` for predicate `p`, ordered by `key`. */
  function Page<T(!new)>(s: seq<T>, p: T -> bool, key: T -> real, offset: nat, limit: nat): seq<T> {
    Window(SortDesc(Filter(s, p), key), offset, limit)
  }

  /** A page holds at most `limit` rows, and its size is fixed by
      `offset`, `limit` and the number of matching rows: in particular it
      is empty once `offset` reaches that number. */
  lemma PageSize<T(!new)>(s: seq<T>, p: T -> bool, key: T -> real, offset: nat, limit: nat)
    ensures |Page(s, p, key, offset, limit)| <= limit
    ensures |Page(s, p, key, offset, limit)|
            == if offset >= |Filter(s, p)| then 0 else Min(limit, |Filter(s, p)| - offset)
  {
    WindowSize(SortDesc(Filter(s, p), key), offset, limit);
  }

  lemma WindowSize<T>(s: seq<T>, offset: nat, limit: nat)
    ensures |Window(s, offset, limit)| == if offset >= |s| then 0 else Min(limit, |s| - offset)
  {
  }

  /** Every row on a page is a row of `s` that satisfies `p`, and no row
      appears on it more often than it matches. */
  lemma PageRowsMatch<T(!new)>(s: seq<T>, p: T -> bool, key: T -> real, offset: nat, limit: nat)
    ensures multiset(Page(s, p, key, offset, limit)) <= multiset(Filter(s, p))
    ensures forall x :: x in Page(s, p, key, offset, limit) ==> x in s && p(x)
  {
    var matching := Filter(s, p);
    var sorted := SortDesc(matching, key);
    var page := Window(sorted, offset, limit);
    WindowSubMultiset(sorted, offset, limit);
    forall x | x in page
      ensures x in s && p(x)
    {
      assert x in multiset(page);
      assert x in multiset(sorted);
      assert x in matching;
    }
  }

  /** The matching rows a page skips: the first `offset` of them in key
      order (all of them when there are fewer). */
  function Skipped<T(!new)>(s: seq<T>, p: T -> bool, key: T -> real, offset: nat): (r: seq<T>)
    ensures |r| == Min(offset, |Filter(s, p)|)
  {
    var sorted := SortDesc(Filter(s, p), key);
    sorted[..Min(offset, |sorted|)]
  }

  /** A page is the run of the ranking that starts after the skipped rows:
      every skipped row ranks at least as high as every row on the page,
      and a matching row that ranks higher than some row on the page is on
      the page or was skipped. */
  lemma PageIsTopRun<T(!new)>(s: seq<T>, p: T -> bool, key: T -> real, offset: nat, limit: nat)
    ensures var page := Page(s, p, key, offset, limit);
            forall x, i :: x in Skipped(s, p, key, offset) && 0 <= i < |page| ==> key(x) >= key(page[i])
    ensures var page := Page(s, p, key, offset, limit);
            forall x, i :: 0 <= i < |page| && x in s && p(x) && key(x) > key(page[i])
                           ==> x in page || x in Skipped(s, p, key, offset)
  {
    var sorted := SortDesc(Filter(s, p), key);
    RunOfRanking(sorted, key, offset, limit);
    forall x | x in s && p(x)
      ensures x in sorted
    {
      assert x in multiset(Filter(s, p));
    }
  }

  /** The window of a highest-first sequence that starts at `offset`
      follows the elements before `offset` and holds every element that
      ranks above one of its own, other than those before it. */
  lemma RunOfRanking<T>(sorted: seq<T>, key: T -> real, offset: nat, limit: nat)
    requires NonIncreasing(sorted, key)
    ensures var page, skipped := Window(sorted, offset, limit), sorted[..Min(offset, |sorted|)];
            forall x, i :: x in skipped && 0 <= i < |page| ==> key(x) >= key(page[i])
    ensures var page, skipped := Window(sorted, offset, limit), sorted[..Min(offset, |sorted|)];
            forall x, i :: 0 <= i < |page| && x in sorted && key(x) > key(page[i]) ==> x in page || x in skipped
  {
    var page, skipped := Window(sorted, offset, limit), sorted[..Min(offset, |sorted|)];
    if offset < |sorted| {
      assert page == sorted[offset..offset + |page|];
      forall x, i | x in skipped && 0 <= i < |page|
        ensures key(x) >= key(page[i])
      {
        var j :| 0 <= j < |skipped| && skipped[j] == x;
        assert sorted[j] == x && page[i] == sorted[offset + i];
      }
      forall x, i | 0 <= i < |page| && x in sorted && key(x) > key(page[i])
        ensures x in page || x in skipped
      {
        var j :| 0 <= j < |sorted| && sorted[j] == x;
        assert page[i] == sorted[offset + i];
        if j < offset {
          assert skipped[j] == x;
        } else {
          assert page[j - offset] == x;
        }
      }
    }
  }

  /** A page is ordered by `key`, highest first. */
  lemma PageOrdered<T(!new)>(s: seq<T>, p: T -> bool, key: T -> real, offset: nat, limit: nat)
    ensures NonIncreasing(Page(s, p, key, offset, limit), key)
  {
    WindowNonIncreasing(SortDesc(Filter(s, p), key), key, offset, limit);
  }
}
